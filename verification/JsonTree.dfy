/** Parsed JSON, and the bounded check the usage reader makes of every tree (usage-sources.cjs). */
module JsonTree {
  import opened Results

  datatype SourceError = UnsupportedFormat | SourceTooLarge | InvalidUsage

  // A number: a safe integer, or any other with the text String() gives it.
  datatype Num = Safe(value: int) | Unsafe(text: string)

  // Objects list their own properties in enumeration order.
  datatype Json =
    | Null
    | Bool(b: bool)
    | Number(num: Num)
    | Text(text: string)
    | Arr(items: seq<Json>)
    | Obj(entries: seq<(string, Json)>)
  {
    predicate IsContainer() {
      Arr? || Obj?
    }

    function Width(): nat {
      if Arr? then |items| else if Obj? then |entries| else 0
    }

    function Child(i: nat): (c: Json)
      requires i < Width()
      ensures c < this
    {
      if Arr? then items[i]
      else
        assert entries[i] < this;
        entries[i].1
    }
  }

  const MAX_NODES := 200_000
  const MAX_ARRAY := 10_000
  const MAX_DEPTH := 64

  predicate IsUnsafeKey(key: string) {
    key == "__proto__" || key == "prototype" || key == "constructor"
  }

  // ----- What validateTree accepts -----

  predicate NodeAcceptable(t: Json, depth: nat) {
    && depth <= 64
    && (t.Arr? ==> |t.items| <= 10_000)
    && (t.Obj? ==> forall i | 0 <= i < |t.entries| :: !IsUnsafeKey(t.entries[i].0))
  }

  // Depth, array lengths and keys are within bounds throughout the tree.
  predicate Bounded(t: Json, depth: nat) {
    NodeAcceptable(t, depth) && forall i | 0 <= i < t.Width() :: Bounded(t.Child(i), depth + 1)
  }

  function Nodes(t: Json): nat
    decreases t, t.Width() + 1
  {
    1 + NodesFrom(t, 0)
  }

  function NodesFrom(t: Json, i: nat): nat
    decreases t, t.Width() - i
  {
    if i >= t.Width() then 0 else Nodes(t.Child(i)) + NodesFrom(t, i + 1)
  }

  // ----- The worklist -----

  type Worklist = seq<(Json, nat)>

  function NodesOf(pending: Worklist): nat {
    if pending == [] then 0 else NodesOf(pending[..|pending| - 1]) + Nodes(pending[|pending| - 1].0)
  }

  ghost predicate AllBounded(pending: Worklist) {
    forall k | 0 <= k < |pending| :: Bounded(pending[k].0, pending[k].1)
  }

  lemma PushNodes(pending: Worklist, item: (Json, nat))
    ensures NodesOf(pending + [item]) == NodesOf(pending) + Nodes(item.0)
  {
    assert (pending + [item])[..|pending|] == pending;
  }

  // The children of an item, each one level deeper.
  function Children(t: Json, depth: nat, n: nat): (r: Worklist)
    requires n <= t.Width()
    ensures |r| == n && forall k | 0 <= k < n :: r[k] == (t.Child(k), depth + 1)
  {
    seq(n, i requires 0 <= i < n => (t.Child(i), depth + 1))
  }

  method PushChildren(rest: Worklist, t: Json, depth: nat) returns (r: Result<Worklist, SourceError>)
    ensures r.Ok? <==> (t.Obj? ==> forall i | 0 <= i < |t.entries| :: !IsUnsafeKey(t.entries[i].0))
    ensures r.Ok? ==> r.value == rest + Children(t, depth, t.Width())
    ensures r.Ok? ==> NodesOf(r.value) == NodesOf(rest) + NodesFrom(t, 0)
  {
    var pending := rest;
    for n := 0 to t.Width()
      invariant pending == rest + Children(t, depth, n)
      invariant NodesOf(pending) + NodesFrom(t, n) == NodesOf(rest) + NodesFrom(t, 0)
      invariant t.Obj? ==> forall i | 0 <= i < n :: !IsUnsafeKey(t.entries[i].0)
    {
      if t.Obj? && IsUnsafeKey(t.entries[n].0) {
        return Err(UnsupportedFormat);
      }
      PushNodes(pending, (t.Child(n), depth + 1));
      pending := pending + [(t.Child(n), depth + 1)];
    }
    r := Ok(pending);
  }

  // One item is within bounds exactly when it is acceptable and its children are.
  lemma PopBounded(pending: Worklist, t: Json, depth: nat, more: Worklist)
    requires pending != [] && pending[|pending| - 1] == (t, depth)
    requires more == pending[..|pending| - 1] + Children(t, depth, t.Width())
    ensures AllBounded(pending) <==> NodeAcceptable(t, depth) && AllBounded(more)
  {
    var rest := pending[..|pending| - 1];
    if NodeAcceptable(t, depth) && AllBounded(more) {
      forall i | 0 <= i < t.Width() ensures Bounded(t.Child(i), depth + 1) {
        assert more[|rest| + i] == (t.Child(i), depth + 1);
      }
      forall k | 0 <= k < |pending| ensures Bounded(pending[k].0, pending[k].1) {
        assert k < |rest| ==> more[k] == pending[k];
      }
    }
    if AllBounded(pending) {
      assert Bounded(t, depth);
      forall k | 0 <= k < |more| ensures Bounded(more[k].0, more[k].1) {
        assert k < |rest| ==> more[k] == pending[k];
      }
    }
  }

  // Draining the worklist accepts exactly the trees the recursive reading accepts, and
  // adds exactly the size of the tree to the budget shared between trees.
  method ValidateTree(value: Json, counted: nat) returns (r: Result<nat, SourceError>)
    ensures r.Ok? <==> Bounded(value, 0) && counted + Nodes(value) <= 200_000
    ensures r.Ok? ==> r.value == counted + Nodes(value)
  {
    var pending: Worklist := [(value, 0)];
    var nodes := counted;
    assert pending == [] + [(value, 0)];
    PushNodes([], (value, 0));
    assert AllBounded(pending) <==> Bounded(value, 0) by {
      if AllBounded(pending) { assert Bounded(pending[0].0, pending[0].1); }
    }
    while pending != []
      invariant nodes + NodesOf(pending) == counted + Nodes(value)
      invariant AllBounded(pending) <==> Bounded(value, 0)
      invariant nodes == counted || nodes <= MAX_NODES
      decreases NodesOf(pending)
    {
      var (item, depth) := pending[|pending| - 1];
      var rest := pending[..|pending| - 1];
      PopBounded(pending, item, depth, rest + Children(item, depth, item.Width()));
      nodes := nodes + 1;
      if nodes > MAX_NODES || depth > MAX_DEPTH || (item.Arr? && |item.items| > MAX_ARRAY) {
        return Err(SourceTooLarge);
      }
      var more := PushChildren(rest, item, depth);
      if more.Err? {
        return Err(more.error);
      }
      pending := more.value;
    }
    r := Ok(nodes);
  }
}
