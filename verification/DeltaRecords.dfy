/**
 What one record of a delta log does, said over the record's own properties "kind", "k" and
 "v": when it is accepted, where its path leads afterwards, and what it leaves alone.
 */
module DeltaRecords {
  import opened Results
  import opened JsonText
  import opened JsonTree
  import opened DeltaLog

  // ----- Properties, elements and segments -----

  // An own property is the first entry of its name; there is none without one.
  lemma OwnProperty(entries: seq<(string, Json)>, key: string, i: nat)
    requires i <= |entries| && forall k | 0 <= k < i :: entries[k].0 != key
    ensures i == |entries| ==> Get(Obj(entries), key) == None
    ensures i < |entries| && entries[i].0 == key ==> Get(Obj(entries), key) == Some(entries[i].1)
  {
    if i == |entries| || entries[i].0 == key { EntryIsFirst(entries, key, i); }
  }

  lemma {:induction false} DigitsAreIndex(n: nat)
    ensures IsIndex(Digits(n)) && (n > 0 ==> Digits(n)[0] != '0')
  {
    if n >= 10 {
      DigitsAreIndex(n / 10);
      assert Digits(n)[0] == Digits(n / 10)[0];
    }
  }

  // The elements of an array are its properties "0", "1", ... and no others.
  lemma OwnElement(items: seq<Json>, n: nat, key: string)
    ensures Get(Arr(items), Digits(n)) == if n < |items| then Some(items[n]) else None
    ensures Get(Arr(items), key).Some? ==> key == Digits(DigitsValue(key))
  {
    DigitsAreIndex(n);
    DigitsReadBack(n);
    if IsIndex(key) { IndexIsDigits(key); }
  }

  // A text names itself, a number its decimal text; index texts are the naturals' texts.
  lemma SegmentNames(text: string, n: int, key: string)
    ensures SegmentText(Text(text)) == Some(text) && SegmentText(Number(Unsafe(text))) == Some(text)
    ensures n >= 0 ==> SegmentText(Number(Safe(n))) == Some(Digits(n)) && DigitsValue(Digits(n)) == n
    ensures n < 0 ==> SegmentText(Number(Safe(n))) == Some("-" + Digits(-n)) && DigitsValue(Digits(-n)) == -n
    ensures IsIndex(key) <==> key == Digits(DigitsValue(key))
  {
    DigitsReadBack(if n < 0 then -n else n);
    DigitsAreIndex(DigitsValue(key));
    if IsIndex(key) { IndexIsDigits(key); }
  }

  // ----- When a path can be followed -----

  // The container before segment n: the one there, or the one made for that segment.
  function ContainerAt(t: Json, path: seq<Json>, n: nat): Json
    requires n < |path|
  {
    if n == 0 then t
    else Lookup(t, KeysOf(path)[..n]).GetOr(if IsIndex(KeysOf(path)[n]) then Arr([]) else Obj([]))
  }

  // A segment leads into a container: it is a usable property name, and in an array an index
  // within the limit and at most one past the end.
  predicate Leads(container: Json, segment: Json, key: string) {
    && container.IsContainer() && (segment.Text? || segment.Number?)
    && 0 < |key| <= 128 && key !in {"__proto__", "prototype", "constructor"}
    && (container.Arr? ==> IsIndex(key) && DigitsValue(key) < 10_000 && DigitsValue(key) <= |container.items|)
  }

  ghost predicate Followable(t: Json, path: seq<Json>) {
    forall n | 0 <= n < |path| :: Leads(ContainerAt(t, path, n), path[n], KeysOf(path)[n])
  }

  // What is appended to: the array the path leads to, or an empty one where there is nothing.
  function AppendedTo(t: Json, path: seq<Json>): Json {
    Lookup(t, KeysOf(path)).GetOr(Arr([]))
  }

  function Additions(v: Json): seq<Json> {
    if v.Arr? then v.items else [v]
  }

  ghost predicate Allowed(t: Json, path: seq<Json>, action: Action, v: Json) {
    && Followable(t, path)
    && (action == Append ==>
          AppendedTo(t, path).Arr? && |AppendedTo(t, path).items| + |Additions(v)| <= 10_000)
  }

  lemma LeadsExactly(t: Json, segment: Json)
    requires t.IsContainer()
    ensures PathSegment(t, segment).Ok? <==> Leads(t, segment, SegmentText(segment).GetOr(""))
    ensures PathSegment(t, segment).Ok? ==> PathSegment(t, segment).value == SegmentText(segment).GetOr("")
  {
  }

  function ChildAt(t: Json, path: seq<Json>): Json
    requires |path| > 1
  {
    Get(t, KeysOf(path)[0]).GetOr(NewContainer(path[1]))
  }

  lemma LookupThroughChild(t: Json, path: seq<Json>, n: nat)
    requires 1 < |path| && 2 <= n <= |path|
    ensures Lookup(t, KeysOf(path)[..n]) == Lookup(ChildAt(t, path), KeysOf(path[1..])[..n - 1])
  {
    assert KeysOf(path)[..n][1..] == KeysOf(path[1..])[..n - 1];
    if Get(t, KeysOf(path)[0]).None? { LookupInNew(path[1], KeysOf(path[1..])[..n - 1]); }
  }

  lemma ContainerThroughChild(t: Json, path: seq<Json>, n: nat)
    requires 1 < |path| && 1 <= n < |path|
    ensures ContainerAt(t, path, n) == ContainerAt(ChildAt(t, path), path[1..], n - 1)
  {
    assert KeysOf(path)[n] == KeysOf(path[1..])[n - 1];
    if n > 1 {
      LookupThroughChild(t, path, n);
    } else {
      var first := KeysOf(path)[..1];
      assert first[1..] == [] && first[0] == KeysOf(path)[0];
      assert Lookup(t, first) == Get(t, first[0]);
      assert NewContainer(path[1]) == if IsIndex(KeysOf(path)[1]) then Arr([]) else Obj([]);
    }
  }

  lemma FollowableThroughChild(t: Json, path: seq<Json>)
    requires 1 < |path|
    ensures Followable(t, path) <==>
            Leads(t, path[0], KeysOf(path)[0]) && Followable(ChildAt(t, path), path[1..])
  {
    forall n | 1 <= n < |path|
      ensures ContainerAt(t, path, n) == ContainerAt(ChildAt(t, path), path[1..], n - 1)
      ensures path[n] == path[1..][n - 1] && KeysOf(path)[n] == KeysOf(path[1..])[n - 1]
    {
      ContainerThroughChild(t, path, n);
    }
    if Followable(t, path) {
      forall n | 0 <= n < |path[1..]|
        ensures Leads(ContainerAt(ChildAt(t, path), path[1..], n), path[1..][n], KeysOf(path[1..])[n])
      {
        assert Leads(ContainerAt(t, path, n + 1), path[n + 1], KeysOf(path)[n + 1]);
      }
      assert Leads(ContainerAt(t, path, 0), path[0], KeysOf(path)[0]);
    } else if Leads(t, path[0], KeysOf(path)[0]) && Followable(ChildAt(t, path), path[1..]) {
      forall n | 0 <= n < |path| ensures Leads(ContainerAt(t, path, n), path[n], KeysOf(path)[n]) {
        if n > 0 {
          assert Leads(ContainerAt(ChildAt(t, path), path[1..], n - 1), path[1..][n - 1], KeysOf(path[1..])[n - 1]);
        }
      }
    }
  }

  lemma PutAtOnce(t: Json, path: seq<Json>, action: Action, v: Json)
    requires t.IsContainer() && |path| == 1
    ensures PutAt(t, path, action, v).Ok? <==> Allowed(t, path, action, v)
  {
    LeadsExactly(t, path[0]);
    assert Followable(t, path) <==> Leads(ContainerAt(t, path, 0), path[0], KeysOf(path)[0]);
    assert KeysOf(path)[1..] == [];
    assert Lookup(t, KeysOf(path)) == Get(t, KeysOf(path)[0]);
  }

  // Putting at a path succeeds exactly when it can be followed and, for an append, ends at an
  // array with room for what is added, or at nothing.
  lemma {:induction false} PutAtExactly(t: Json, path: seq<Json>, action: Action, v: Json)
    requires t.IsContainer() && path != []
    ensures PutAt(t, path, action, v).Ok? <==> Allowed(t, path, action, v)
    decreases |path|
  {
    var key := KeysOf(path)[0];
    LeadsExactly(t, path[0]);
    if |path| == 1 {
      PutAtOnce(t, path, action, v);
    } else {
      var child := ChildAt(t, path);
      FollowableThroughChild(t, path);
      LookupThroughChild(t, path, |path|);
      assert KeysOf(path)[..|path|] == KeysOf(path) && KeysOf(path[1..])[..|path| - 1] == KeysOf(path[1..]);
      if child.IsContainer() {
        PutAtExactly(child, path[1..], action, v);
      } else {
        assert !Leads(ContainerAt(child, path[1..], 0), path[1..][0], KeysOf(path[1..])[0]);
      }
    }
  }

  // ----- One record -----

  // A record that sets (kind 1) or appends (kind 2) a value at a path.
  predicate Writes(event: Json, kind: int, path: seq<Json>, v: Json) {
    && event.Obj? && Get(event, "kind") == Some(Number(Safe(kind))) && Get(event, "k") == Some(Arr(path))
    && Get(event, "v") == Some(v)
  }

  predicate Restarts(event: Json, v: Json) {
    event.Obj? && Get(event, "kind") == Some(Number(Safe(0))) && Get(event, "v") == Some(v)
  }

  // The values on the way are containers, of the kind they were, or made as an array exactly
  // for an index.
  ghost predicate WayIsKept(before: Json, after: Json, keys: seq<string>) {
    forall n | 0 < n < |keys| ::
      var was, now := Lookup(before, keys[..n]), Lookup(after, keys[..n]);
      now.Some? && now.value.IsContainer()
          && (now.value.Arr? <==> if was.Some? then was.value.Arr? else IsIndex(keys[n]))
  }

  ghost predicate OthersAreKept(before: Json, after: Json, keys: seq<string>) {
    forall other | Part(keys, other) :: Lookup(after, other) == Lookup(before, other)
  }

  lemma WayOf(t: Json, path: seq<Json>, action: Action, v: Json)
    requires t.IsContainer() && path != [] && PutAt(t, path, action, v).Ok?
    ensures WayIsKept(t, PutAt(t, path, action, v).value, KeysOf(path))
    ensures OthersAreKept(t, PutAt(t, path, action, v).value, KeysOf(path))
  {
    forall n | 0 < n < |path|
      ensures var was, now :=
              Lookup(t, KeysOf(path)[..n]), Lookup(PutAt(t, path, action, v).value, KeysOf(path)[..n]);
              && now.Some? && now.value.IsContainer()
              && (now.value.Arr? <==> if was.Some? then was.value.Arr? else IsIndex(KeysOf(path)[n]))
    {
      ContainersOnTheWay(t, path, action, v, n);
    }
    forall other | Part(KeysOf(path), other)
      ensures Lookup(PutAt(t, path, action, v).value, other) == Lookup(t, other)
    {
      OtherPathsAreKept(t, path, action, v, other);
    }
  }

  // A record of kind 1 is applied exactly when its path, of 1 to 64 segments, can be
  // followed; the path then leads to its value.
  lemma SetIsApplied(state: Json, event: Json, path: seq<Json>, v: Json)
    requires state.IsContainer() && Writes(event, 1, path, v)
    ensures Apply(state, event).Ok? <==> 1 <= |path| <= 64 && Followable(state, path)
    ensures Apply(state, event).Ok? ==>
              var after := Apply(state, event).value;
              && Lookup(after, KeysOf(path)) == Some(v) && (after.Arr? <==> state.Arr?)
              && WayIsKept(state, after, KeysOf(path)) && OthersAreKept(state, after, KeysOf(path))
  {
    if 1 <= |path| <= 64 {
      PutAtExactly(state, path, Set, v);
      if PutAt(state, path, Set, v).Ok? {
        PutAtIsContainer(state, path, Set, v);
        SetReaches(state, path, v);
        WayOf(state, path, Set, v);
      }
    }
  }

  // A record of kind 2 is applied exactly when, besides, the path leads to an array, or to
  // nothing, and the additions fit; it then leads to that array with the additions behind it.
  lemma AppendIsApplied(state: Json, event: Json, path: seq<Json>, v: Json)
    requires state.IsContainer() && Writes(event, 2, path, v)
    ensures Apply(state, event).Ok? <==>
            && 1 <= |path| <= 64 && Followable(state, path) && AppendedTo(state, path).Arr?
            && |AppendedTo(state, path).items| + |Additions(v)| <= 10_000
    ensures Apply(state, event).Ok? ==>
              var after := Apply(state, event).value;
              && Lookup(after, KeysOf(path)) == Some(Arr(AppendedTo(state, path).items + Additions(v)))
              && (after.Arr? <==> state.Arr?)
              && WayIsKept(state, after, KeysOf(path)) && OthersAreKept(state, after, KeysOf(path))
  {
    if 1 <= |path| <= 64 {
      PutAtExactly(state, path, Append, v);
      if PutAt(state, path, Append, v).Ok? {
        PutAtIsContainer(state, path, Append, v);
        AppendReaches(state, path, v);
        WayOf(state, path, Append, v);
      }
    }
  }

  // A restart is applied exactly when its value is an object, which is then the state.
  lemma RestartIsApplied(state: Json, event: Json, v: Json)
    requires state.IsContainer() && Restarts(event, v)
    ensures Apply(state, event) == if v.Obj? then Ok(v) else Err(UnsupportedFormat)
  {
  }

  // What a record must be for the log to go on.
  ghost predicate Applicable(state: Json, event: Json) {
    || (exists v :: Restarts(event, v) && v.Obj?)
    || (exists path, v :: Writes(event, 1, path, v) && 1 <= |path| <= 64 && Followable(state, path))
    || (exists path, v :: Writes(event, 2, path, v) && 1 <= |path| <= 64 && Followable(state, path)
          && AppendedTo(state, path).Arr? && |AppendedTo(state, path).items| + |Additions(v)| <= 10_000)
  }

  // A record is of one of the three kinds and applied as above, or it is refused.
  lemma AppliedExactly(state: Json, event: Json)
    requires state.IsContainer()
    ensures Apply(state, event).Ok? <==> Applicable(state, event)
  {
    if Apply(state, event).Ok? {
      var v := Get(event, "v").value;
      if Get(event, "kind") == Some(Number(Safe(0))) {
        assert Restarts(event, v);
      } else {
        var path := Get(event, "k").value.items;
        if Get(event, "kind") == Some(Number(Safe(1))) {
          SetIsApplied(state, event, path, v);
          assert Writes(event, 1, path, v);
        } else {
          AppendIsApplied(state, event, path, v);
          assert Writes(event, 2, path, v);
        }
      }
    }
    forall v | Restarts(event, v) && v.Obj? ensures Apply(state, event).Ok? {
      RestartIsApplied(state, event, v);
    }
    forall path, v | Writes(event, 1, path, v) && 1 <= |path| <= 64 && Followable(state, path)
      ensures Apply(state, event).Ok?
    {
      SetIsApplied(state, event, path, v);
    }
    forall path, v | Writes(event, 2, path, v) && 1 <= |path| <= 64 && Followable(state, path)
        && AppendedTo(state, path).Arr? && |AppendedTo(state, path).items| + |Additions(v)| <= 10_000
      ensures Apply(state, event).Ok?
    {
      AppendIsApplied(state, event, path, v);
    }
  }

  // ----- The last record of a log -----

  // What the last record makes of the state before it.
  ghost predicate IsLastState(before: Json, event: Json, after: Json) {
    && Applicable(before, event)
    && (forall v | Restarts(event, v) :: v.Obj? && after == v)
    && (forall path, v | Writes(event, 1, path, v) ::
          && Lookup(after, KeysOf(path)) == Some(v)
          && WayIsKept(before, after, KeysOf(path)) && OthersAreKept(before, after, KeysOf(path)))
    && (forall path, v | Writes(event, 2, path, v) ::
          && AppendedTo(before, path).Arr?
          && Lookup(after, KeysOf(path)) == Some(Arr(AppendedTo(before, path).items + Additions(v)))
          && WayIsKept(before, after, KeysOf(path)) && OthersAreKept(before, after, KeysOf(path)))
  }

  lemma AppliedIsLastState(state: Json, event: Json)
    requires state.IsContainer() && Apply(state, event).Ok?
    ensures IsLastState(state, event, Apply(state, event).value)
  {
    AppliedExactly(state, event);
    forall v | Restarts(event, v) ensures v.Obj? && Apply(state, event).value == v {
      RestartIsApplied(state, event, v);
    }
    forall path, v | Writes(event, 1, path, v)
      ensures Lookup(Apply(state, event).value, KeysOf(path)) == Some(v)
      ensures WayIsKept(state, Apply(state, event).value, KeysOf(path))
      ensures OthersAreKept(state, Apply(state, event).value, KeysOf(path))
    {
      SetIsApplied(state, event, path, v);
    }
    forall path, v | Writes(event, 2, path, v)
      ensures AppendedTo(state, path).Arr?
      ensures Lookup(Apply(state, event).value, KeysOf(path)) ==
              Some(Arr(AppendedTo(state, path).items + Additions(v)))
      ensures WayIsKept(state, Apply(state, event).value, KeysOf(path))
      ensures OthersAreKept(state, Apply(state, event).value, KeysOf(path))
    {
      AppendIsApplied(state, event, path, v);
    }
  }

  // A log is a restart with an object, or one record more than a log that the record can be
  // applied to; its state is that object, or what the last record makes of the state before.
  lemma LogIsItsLastRecord(events: seq<Json>)
    ensures DeltaOf(events).Ok? <==>
            || (|events| == 1 && exists v :: Restarts(events[0], v) && v.Obj?)
            || (|events| > 1 && DeltaOf(events[..|events| - 1]).Ok?
                && Applicable(DeltaOf(events[..|events| - 1]).value, events[|events| - 1]))
    ensures DeltaOf(events).Ok? && |events| == 1 ==> Restarts(events[0], DeltaOf(events).value)
    ensures DeltaOf(events).Ok? && |events| > 1 ==>
              IsLastState(DeltaOf(events[..|events| - 1]).value, events[|events| - 1], DeltaOf(events).value)
  {
    if |events| > 1 {
      var earlier := events[..|events| - 1];
      assert earlier[1..] == events[1..][..|events| - 2] && earlier[0] == events[0];
      assert events[1..][|events| - 2] == events[|events| - 1];
      if DeltaOf(earlier).Ok? {
        AppliedExactly(DeltaOf(earlier).value, events[|events| - 1]);
        if DeltaOf(events).Ok? {
          AppliedIsLastState(DeltaOf(earlier).value, events[|events| - 1]);
        }
      }
    } else if |events| == 1 {
      assert events[1..] == [];
      if DeltaOf(events).Ok? {
        assert Restarts(events[0], DeltaOf(events).value);
      }
      forall v | Restarts(events[0], v) && v.Obj? ensures DeltaOf(events) == Ok(v) {
        assert IsReset(events[0]);
      }
    }
  }
}
