/**
 Replaying a delta log over a JSON tree (usage-sources.cjs, deltaState and pathSegment):
 a record replaces the whole state, sets the value at a path or appends to the array
 there; missing containers on the way are created.
 */
module DeltaLog {
  import opened Results
  import opened JsonText
  import opened JsonTree

  const MAX_KEY := 128

  // ----- Containers -----

  // ^(0|[1-9]\d*)$
  predicate IsIndex(key: string) {
    && key != "" && (forall i | 0 <= i < |key| :: '0' <= key[i] <= '9')
    && (key[0] == '0' ==> |key| == 1)
  }

  // Where an object has an own property, or |entries|.
  function EntryAt(entries: seq<(string, Json)>, key: string): (i: nat)
    ensures i <= |entries|
    ensures i < |entries| ==> entries[i].0 == key
  {
    if entries == [] then 0 else if entries[0].0 == key then 0 else 1 + EntryAt(entries[1..], key)
  }

  // container[key], when the container has it as its own.
  function Get(t: Json, key: string): Option<Json> {
    match t
    case Obj(entries) =>
      var i := EntryAt(entries, key);
      if i < |entries| then Some(entries[i].1) else None
    case Arr(items) =>
      if IsIndex(key) && DigitsValue(key) < |items| then Some(items[DigitsValue(key)]) else None
    case _ => None
  }

  // container[key] = value; an array grows by one at most.
  function Put(t: Json, key: string, value: Json): Json
    requires t.IsContainer()
  {
    match t
    case Obj(entries) =>
      var i := EntryAt(entries, key);
      Obj(if i < |entries| then entries[i := (key, value)] else entries + [(key, value)])
    case Arr(items) =>
      var i := DigitsValue(key);
      if i < |items| then Arr(items[i := value]) else Arr(items + [value])
  }

  // String(segment) of a string or a number.
  function SegmentText(segment: Json): Option<string> {
    match segment
    case Text(text) => Some(text)
    case Number(Safe(value)) => Some(if value < 0 then "-" + Digits(-value) else Digits(value))
    case Number(Unsafe(text)) => Some(text)
    case _ => None
  }

  // The property a path segment names in a container.
  function PathSegment(container: Json, segment: Json): Result<string, SourceError> {
    match SegmentText(segment)
    case None => Err(UnsupportedFormat)
    case Some(key) =>
      if |key| == 0 || |key| > MAX_KEY || IsUnsafeKey(key) then Err(UnsupportedFormat)
      else if !container.Arr? then Ok(key)
      else if !IsIndex(key) then Err(UnsupportedFormat)
      else if DigitsValue(key) >= MAX_ARRAY then Err(SourceTooLarge)
      else if DigitsValue(key) > |container.items| then Err(UnsupportedFormat)
      else Ok(key)
  }

  // ----- One record -----

  datatype Action = Set | Append

  // What a missing container on the way is created as, by the segment after it.
  function NewContainer(next: Json): Json {
    match SegmentText(next)
    case Some(key) => if IsIndex(key) then Arr([]) else Obj([])
    case None => Obj([])
  }

  function Appended(existing: Option<Json>, v: Json): Result<Json, SourceError> {
    var target := existing.GetOr(Arr([]));
    if !target.Arr? then Err(UnsupportedFormat)
    else
      var additions := if v.Arr? then v.items else [v];
      if |target.items| + |additions| > MAX_ARRAY then Err(SourceTooLarge) else Ok(Arr(target.items + additions))
  }

  function PutAt(t: Json, path: seq<Json>, action: Action, v: Json): Result<Json, SourceError>
    requires t.IsContainer() && path != []
    decreases |path|
  {
    match PathSegment(t, path[0])
    case Err(e) => Err(e)
    case Ok(key) =>
      if |path| == 1 then
        match action
        case Set => Ok(Put(t, key, v))
        case Append => (
          match Appended(Get(t, key), v)
          case Err(e) => Err(e)
          case Ok(value) => Ok(Put(t, key, value)))
      else
        var child := Get(t, key).GetOr(NewContainer(path[1]));
        if !child.IsContainer() then Err(UnsupportedFormat)
        else match PutAt(child, path[1..], action, v)
          case Err(e) => Err(e)
          case Ok(after) => Ok(Put(t, key, after))
  }

  function Apply(state: Json, event: Json): (r: Result<Json, SourceError>)
    requires state.IsContainer()
    ensures r.Ok? ==> r.value.IsContainer()
  {
    if !event.Obj? || Get(event, "v").None? then Err(UnsupportedFormat)
    else
      var kind, k, v := Get(event, "kind"), Get(event, "k"), Get(event, "v").value;
      if kind == Some(Number(Safe(0))) then if v.Obj? then Ok(v) else Err(UnsupportedFormat)
      else if !(kind == Some(Number(Safe(1))) || kind == Some(Number(Safe(2)))) || k.None? || !k.value.Arr?
          || k.value.items == []
      then Err(UnsupportedFormat)
      else if |k.value.items| > MAX_DEPTH then Err(SourceTooLarge)
      else
        PutAtIsContainer(state, k.value.items, if kind == Some(Number(Safe(1))) then Set else Append, v);
        PutAt(state, k.value.items, if kind == Some(Number(Safe(1))) then Set else Append, v)
  }

  lemma PutAtIsContainer(t: Json, path: seq<Json>, action: Action, v: Json)
    requires t.IsContainer() && path != []
    ensures PutAt(t, path, action, v).Ok? ==>
              PutAt(t, path, action, v).value.IsContainer() && (PutAt(t, path, action, v).value.Obj? <==> t.Obj?)
  {
  }

  // ----- The whole log -----

  function Replay(state: Json, events: seq<Json>): (r: Result<Json, SourceError>)
    requires state.IsContainer()
    ensures r.Ok? ==> r.value.IsContainer()
  {
    if events == [] then Ok(state)
    else match Replay(state, events[..|events| - 1])
      case Err(e) => Err(e)
      case Ok(before) => Apply(before, events[|events| - 1])
  }

  // kind 0 with an object, which starts or restarts a log.
  predicate IsReset(event: Json) {
    event.Obj? && Get(event, "kind") == Some(Number(Safe(0))) && Get(event, "v").Some? && Get(event, "v").value.Obj?
  }

  function DeltaOf(events: seq<Json>): Result<Json, SourceError> {
    if events == [] || !IsReset(events[0]) then Err(UnsupportedFormat)
    else Replay(Get(events[0], "v").value, events[1..])
  }

  method DeltaState(events: seq<Json>) returns (r: Result<Json, SourceError>)
    ensures r.Ok? <==>
            DeltaOf(events).Ok? && Bounded(DeltaOf(events).value, 0) && Nodes(DeltaOf(events).value) <= 200_000
    ensures r.Ok? ==> r == DeltaOf(events)
  {
    if events == [] || !IsReset(events[0]) {
      return Err(UnsupportedFormat);
    }
    var state := Get(events[0], "v").value;
    ghost var rest := events[1..];
    for i := 1 to |events|
      invariant state.IsContainer() && Replay(Get(events[0], "v").value, rest[..i - 1]) == Ok(state)
    {
      assert rest[..i][..i - 1] == rest[..i - 1] && rest[i - 1] == events[i];
      var next := Apply(state, events[i]);
      if next.Err? {
        ReplayFails(Get(events[0], "v").value, rest, i);
        return Err(next.error);
      }
      state := next.value;
    }
    assert rest[..|rest|] == rest;
    var checked := ValidateTree(state, 0);
    if checked.Err? {
      return Err(checked.error);
    }
    r := Ok(state);
  }

  lemma {:induction false} ReplayFails(state: Json, events: seq<Json>, n: nat)
    requires state.IsContainer() && n <= |events| && Replay(state, events[..n]).Err?
    ensures Replay(state, events).Err?
    decreases |events| - n
  {
    if n == |events| {
      assert events[..n] == events;
    } else {
      assert events[..n + 1][..n] == events[..n];
      ReplayFails(state, events, n + 1);
    }
  }

  // Replaying a log in two parts is replaying it whole.
  lemma {:induction false} ReplayIsCompositional(state: Json, a: seq<Json>, b: seq<Json>)
    requires state.IsContainer()
    ensures Replay(state, a + b) == match Replay(state, a) case Err(e) => Err(e) case Ok(middle) => Replay(middle, b)
  {
    if b == [] {
      assert a + b == a;
    } else {
      assert (a + b)[..|a + b| - 1] == a + b[..|b| - 1];
      ReplayIsCompositional(state, a, b[..|b| - 1]);
    }
  }

  // Behind any valid beginning, a restart makes the beginning irrelevant.
  lemma RestartForgets(state: Json, a: seq<Json>, restart: Json, b: seq<Json>)
    requires state.IsContainer() && Replay(state, a).Ok? && IsReset(restart)
    ensures Replay(state, a + [restart] + b) == Replay(Get(restart, "v").value, b)
  {
    ReplayIsCompositional(state, a + [restart], b);
    ReplayIsCompositional(state, a, [restart]);
    assert [restart][..0] == [];
    assert Replay(Replay(state, a).value, [restart]) == Apply(Replay(state, a).value, restart);
  }

  // ----- What one record changes -----

  // The value at a path of keys.
  function Lookup(t: Json, keys: seq<string>): Option<Json>
    decreases |keys|
  {
    if keys == [] then Some(t)
    else match Get(t, keys[0])
      case None => None
      case Some(child) => Lookup(child, keys[1..])
  }

  function KeysOf(path: seq<Json>): (r: seq<string>)
    ensures |r| == |path| && forall i | 0 <= i < |r| :: r[i] == SegmentText(path[i]).GetOr("")
  {
    seq(|path|, i requires 0 <= i < |path| => SegmentText(path[i]).GetOr(""))
  }

  // Index texts are the decimal numbers, each written one way only.
  lemma {:induction false} IndexIsDigits(key: string)
    requires IsIndex(key)
    ensures Digits(DigitsValue(key)) == key
  {
    var init, last := key[..|key| - 1], key[|key| - 1];
    if |key| == 1 {
      assert init == "" && key == [last];
    } else {
      assert IsIndex(init);
      IndexIsDigits(init);
      LeadingDigit(init);
      assert DigitsValue(key) / 10 == DigitsValue(init);
      assert key == init + [last];
    }
  }

  lemma {:induction false} LeadingDigit(key: string)
    requires IsIndex(key) && key[0] != '0'
    ensures DigitsValue(key) >= 1
  {
    if |key| > 1 {
      assert IsIndex(key[..|key| - 1]);
      LeadingDigit(key[..|key| - 1]);
    } else {
      assert key[..0] == "";
    }
  }

  lemma IndicesDiffer(a: string, b: string)
    requires IsIndex(a) && IsIndex(b) && a != b
    ensures DigitsValue(a) != DigitsValue(b)
  {
    IndexIsDigits(a);
    IndexIsDigits(b);
  }

  lemma {:induction false} EntryIsFirst(entries: seq<(string, Json)>, key: string, i: nat)
    requires i <= |entries|
    requires forall k | 0 <= k < i :: entries[k].0 != key
    requires i < |entries| ==> entries[i].0 == key
    ensures EntryAt(entries, key) == i
  {
    if i > 0 { EntryIsFirst(entries[1..], key, i - 1); }
  }

  lemma {:induction false} EntryAtIsFirst(entries: seq<(string, Json)>, key: string)
    ensures forall k | 0 <= k < EntryAt(entries, key) :: entries[k].0 != key
  {
    if entries != [] && entries[0].0 != key {
      EntryAtIsFirst(entries[1..], key);
      assert forall k | 1 <= k < |entries| :: entries[k] == entries[1..][k - 1];
    }
  }

  lemma PutObject(entries: seq<(string, Json)>, key: string, value: Json, other: string)
    ensures Get(Put(Obj(entries), key, value), other) == if other == key then Some(value) else Get(Obj(entries), other)
  {
    var i, j := EntryAt(entries, key), EntryAt(entries, other);
    var after := Put(Obj(entries), key, value).entries;
    EntryAtIsFirst(entries, key);
    EntryAtIsFirst(entries, other);
    EntryIsFirst(after, other, if other != key && j == |entries| then |after| else j);
  }

  // Writing a property changes that property and no other.
  lemma PutChangesOne(t: Json, segment: Json, value: Json, other: string)
    requires t.IsContainer() && PathSegment(t, segment).Ok?
    ensures var key := PathSegment(t, segment).value;
            Get(Put(t, key, value), other) == if other == key then Some(value) else Get(t, other)
  {
    var key := PathSegment(t, segment).value;
    match t
    case Obj(entries) => PutObject(entries, key, value, other);
    case Arr(items) =>
      if IsIndex(other) && other != key { IndicesDiffer(other, key); }
  }

  // After setting, the path leads to the value.
  lemma {:induction false} SetReaches(t: Json, path: seq<Json>, v: Json)
    requires t.IsContainer() && path != [] && PutAt(t, path, Set, v).Ok?
    ensures Lookup(PutAt(t, path, Set, v).value, KeysOf(path)) == Some(v)
    decreases |path|
  {
    var key := PathSegment(t, path[0]).value;
    var after := PutAt(t, path, Set, v).value;
    assert KeysOf(path)[1..] == KeysOf(path[1..]);
    if |path| == 1 {
      PutChangesOne(t, path[0], v, key);
    } else {
      var child := Get(t, key).GetOr(NewContainer(path[1]));
      SetReaches(child, path[1..], v);
      PutChangesOne(t, path[0], PutAt(child, path[1..], Set, v).value, key);
    }
  }

  lemma LookupInNew(next: Json, keys: seq<string>)
    requires keys != []
    ensures Lookup(NewContainer(next), keys) == None
  {
  }

  // After appending, the path leads to the array that was there, or an empty one, with
  // the additions behind it, within the length limit.
  lemma {:induction false} AppendReaches(t: Json, path: seq<Json>, v: Json)
    requires t.IsContainer() && path != [] && PutAt(t, path, Append, v).Ok?
    ensures var before := Lookup(t, KeysOf(path)).GetOr(Arr([]));
            && before.Arr? && |before.items| + (if v.Arr? then |v.items| else 1) <= MAX_ARRAY
            && Lookup(PutAt(t, path, Append, v).value, KeysOf(path)) ==
               Some(Arr(before.items + if v.Arr? then v.items else [v]))
    decreases |path|
  {
    var key := PathSegment(t, path[0]).value;
    assert KeysOf(path)[1..] == KeysOf(path[1..]);
    if |path| == 1 {
      PutChangesOne(t, path[0], Appended(Get(t, key), v).value, key);
    } else {
      var child := Get(t, key).GetOr(NewContainer(path[1]));
      AppendReaches(child, path[1..], v);
      PutChangesOne(t, path[0], PutAt(child, path[1..], Append, v).value, key);
      if Get(t, key).None? { LookupInNew(path[1], KeysOf(path[1..])); }
    }
  }

  // Two paths part: neither leads to or through the end of the other.
  predicate Part(a: seq<string>, b: seq<string>) {
    a != [] && b != [] && (a[0] != b[0] || Part(a[1..], b[1..]))
  }

  // Whatever is not on the path keeps its value, or stays missing.
  lemma {:induction false} OtherPathsAreKept(t: Json, path: seq<Json>, action: Action, v: Json, other: seq<string>)
    requires t.IsContainer() && path != [] && PutAt(t, path, action, v).Ok?
    requires Part(KeysOf(path), other)
    ensures Lookup(PutAt(t, path, action, v).value, other) == Lookup(t, other)
    decreases |path|
  {
    var key := PathSegment(t, path[0]).value;
    assert KeysOf(path)[1..] == KeysOf(path[1..]);
    if |path| == 1 {
      var value := if action == Set then v else Appended(Get(t, key), v).value;
      PutChangesOne(t, path[0], value, other[0]);
    } else {
      var child := Get(t, key).GetOr(NewContainer(path[1]));
      PutChangesOne(t, path[0], PutAt(child, path[1..], action, v).value, other[0]);
      if other[0] == key {
        OtherPathsAreKept(child, path[1..], action, v, other[1..]);
        if Get(t, key).None? { LookupInNew(path[1], other[1..]); }
      }
    }
  }

  // Every container on the way stays what it was, or is created as the next segment asks.
  lemma {:induction false} ContainersOnTheWay(t: Json, path: seq<Json>, action: Action, v: Json, n: nat)
    requires t.IsContainer() && path != [] && PutAt(t, path, action, v).Ok? && 0 < n < |path|
    ensures var before, after :=
            Lookup(t, KeysOf(path)[..n]), Lookup(PutAt(t, path, action, v).value, KeysOf(path)[..n]);
            && after.Some? && after.value.IsContainer()
            && (after.value.Arr? <==> before.GetOr(NewContainer(path[n])).Arr?)
    decreases |path|
  {
    var key := PathSegment(t, path[0]).value;
    var child := Get(t, key).GetOr(NewContainer(path[1]));
    PutChangesOne(t, path[0], PutAt(child, path[1..], action, v).value, key);
    PutAtIsContainer(child, path[1..], action, v);
    assert KeysOf(path)[..n][1..] == KeysOf(path[1..])[..n - 1];
    if n > 1 {
      ContainersOnTheWay(child, path[1..], action, v, n - 1);
      if Get(t, key).None? { LookupInNew(path[1], KeysOf(path[1..])[..n - 1]); }
    }
  }

  // ----- Arrays stay short -----

  predicate ArraysShort(t: Json) {
    (t.Arr? ==> |t.items| <= MAX_ARRAY) && forall i | 0 <= i < t.Width() :: ArraysShort(t.Child(i))
  }

  lemma {:induction false} BoundedArraysAreShort(t: Json, depth: nat)
    requires Bounded(t, depth)
    ensures ArraysShort(t)
    decreases t
  {
    forall i | 0 <= i < t.Width() ensures ArraysShort(t.Child(i)) {
      BoundedArraysAreShort(t.Child(i), depth + 1);
    }
  }

  lemma GetKeepsShort(t: Json, key: string)
    requires ArraysShort(t) && Get(t, key).Some?
    ensures ArraysShort(Get(t, key).value)
  {
    match t
    case Obj(entries) => assert ArraysShort(t.Child(EntryAt(entries, key)));
    case Arr(items) => assert ArraysShort(t.Child(DigitsValue(key)));
  }

  lemma PutKeepsShort(t: Json, segment: Json, value: Json)
    requires t.IsContainer() && ArraysShort(t) && ArraysShort(value) && PathSegment(t, segment).Ok?
    ensures ArraysShort(Put(t, PathSegment(t, segment).value, value))
  {
    var after := Put(t, PathSegment(t, segment).value, value);
    forall i | 0 <= i < after.Width() ensures ArraysShort(after.Child(i)) {
      if i < t.Width() { assert ArraysShort(t.Child(i)); }
    }
  }

  lemma AppendedIsShort(existing: Option<Json>, v: Json)
    requires Appended(existing, v).Ok? && ArraysShort(v) && (existing.Some? ==> ArraysShort(existing.value))
    ensures ArraysShort(Appended(existing, v).value)
  {
    var after := Appended(existing, v).value;
    var target := existing.GetOr(Arr([]));
    forall i | 0 <= i < after.Width() ensures ArraysShort(after.Child(i)) {
      if i < |target.items| {
        assert ArraysShort(target.Child(i));
      } else if v.Arr? {
        assert ArraysShort(v.Child(i - |target.items|));
      }
    }
  }

  lemma {:induction false} PutAtKeepsShort(t: Json, path: seq<Json>, action: Action, v: Json)
    requires t.IsContainer() && path != [] && PutAt(t, path, action, v).Ok?
    requires ArraysShort(t) && ArraysShort(v)
    ensures ArraysShort(PutAt(t, path, action, v).value)
    decreases |path|
  {
    var key := PathSegment(t, path[0]).value;
    if Get(t, key).Some? { GetKeepsShort(t, key); }
    if |path| == 1 {
      if action == Append { AppendedIsShort(Get(t, key), v); }
      PutKeepsShort(t, path[0], if action == Set then v else Appended(Get(t, key), v).value);
    } else {
      var child := Get(t, key).GetOr(NewContainer(path[1]));
      PutAtKeepsShort(child, path[1..], action, v);
      PutKeepsShort(t, path[0], PutAt(child, path[1..], action, v).value);
    }
  }

  // Records that were each within bounds never make an array longer than the limit.
  lemma {:induction false} ReplayKeepsArraysShort(state: Json, events: seq<Json>)
    requires state.IsContainer() && ArraysShort(state) && (forall i | 0 <= i < |events| :: Bounded(events[i], 0))
    requires Replay(state, events).Ok?
    ensures ArraysShort(Replay(state, events).value)
  {
    if events != [] {
      var init, event := events[..|events| - 1], events[|events| - 1];
      ReplayKeepsArraysShort(state, init);
      BoundedArraysAreShort(event, 0);
      GetKeepsShort(event, "v");
      var before := Replay(state, init).value;
      if Get(event, "kind") != Some(Number(Safe(0))) {
        PutAtKeepsShort(before, Get(event, "k").value.items, if Get(event, "kind") == Some(Number(Safe(1))) then Set
            else Append,
                        Get(event, "v").value);
      }
    }
  }
}
