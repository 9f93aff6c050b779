/** The index of a run by comparison key (TraceViewService.Index). */
module TraceIndex {
  import opened Results
  import opened Totals
  import opened Trace
  import opened TraceKeys

  function KindText(kind: EventKind): string {
    match kind
    case RunEvent => "Run"
    case AgentSpan => "AgentSpan"
    case ModelCall => "ModelCall"
    case ToolCall => "ToolCall"
    case PolicyDecision => "PolicyDecision"
  }

  // ----- The path of each event -----

  // What a key says of an event apart from its occurrence.
  datatype Stem = Stem(parent: Path, kind: string, agent: string, name: string) {
    function Text(): string {
      Signature(PathText(parent), kind, agent, name)
    }

    function At(occurrence: nat): Path {
      parent + [Segment(kind, agent, name, occurrence)]
    }
  }

  function StemOf(path: Path): Stem
    requires path != []
  {
    var last := path[|path| - 1];
    Stem(path[..|path| - 1], last.kind, last.agent, last.name)
  }

  // The last event with this id, or |events|.
  function LastWithId(events: seq<FlightEvent>, id: Guid): (i: nat)
    ensures i <= |events|
    ensures i < |events| ==> events[i].id == id
    ensures i == |events| ==> forall k | 0 <= k < |events| :: events[k].id != id
  {
    if events == [] then 0
    else if events[|events| - 1].id == id then |events| - 1
    else
      var i := LastWithId(events[..|events| - 1], id);
      if i == |events| - 1 then |events| else i
  }

  function ParentPath(events: seq<FlightEvent>, paths: seq<Path>, parent: Option<Guid>): Path
    requires |paths| == |events|
  {
    if parent.None? then []
    else
      var i := LastWithId(events, parent.value);
      if i < |events| then paths[i] else []
  }

  function Occurrences(paths: seq<Path>, stem: Stem): (n: nat)
    ensures n <= |paths|
  {
    if paths == [] then 0
    else
      var last := paths[|paths| - 1];
      Occurrences(paths[..|paths| - 1], stem) + if last != [] && StemOf(last) == stem then 1 else 0
  }

  function EventStem(events: seq<FlightEvent>, paths: seq<Path>, e: FlightEvent): Stem
    requires |paths| == |events|
  {
    Stem(ParentPath(events, paths, e.parentEventId), KindText(e.kind), e.agentName.GetOr(""), e.name)
  }

  function Paths(events: seq<FlightEvent>): (r: seq<Path>)
    ensures |r| == |events|
  {
    if events == [] then []
    else
      var earlier := events[..|events| - 1];
      var stem := EventStem(earlier, Paths(earlier), events[|events| - 1]);
      Paths(earlier) + [stem.At(Occurrences(Paths(earlier), stem))]
  }

  function Keys(events: seq<FlightEvent>): (r: seq<string>)
    ensures |r| == |events| && forall i | 0 <= i < |r| :: r[i] == PathText(Paths(events)[i])
  {
    seq(|events|, i requires 0 <= i < |events| => PathText(Paths(events)[i]))
  }

  // ----- Keys are unique -----

  lemma {:induction false} PathsOfPrefix(events: seq<FlightEvent>, n: nat)
    requires n <= |events|
    ensures Paths(events[..n]) == Paths(events)[..n]
    decreases |events| - n
  {
    if n < |events| {
      PathsOfPrefix(events, n + 1);
      assert events[..n + 1][..n] == events[..n];
      assert Paths(events[..n + 1])[..n] == Paths(events[..n]);
    } else {
      assert events[..n] == events;
    }
  }

  // The path of event i, from the events before it.
  lemma PathAt(events: seq<FlightEvent>, i: nat)
    requires i < |events|
    ensures var stem := EventStem(events[..i], Paths(events)[..i], events[i]);
            Paths(events)[i] == stem.At(Occurrences(Paths(events)[..i], stem)) && StemOf(Paths(events)[i]) == stem
  {
    PathsOfPrefix(events, i);
    PathsOfPrefix(events, i + 1);
    assert events[..i + 1][..i] == events[..i];
    var stem := EventStem(events[..i], Paths(events)[..i], events[i]);
    assert Paths(events[..i + 1])[i] == stem.At(Occurrences(Paths(events)[..i], stem));
    StemAndOccurrence(stem, Occurrences(Paths(events)[..i], stem));
  }

  lemma StemAndOccurrence(stem: Stem, n: nat)
    ensures StemOf(stem.At(n)) == stem
  {
    assert stem.At(n)[..|stem.parent|] == stem.parent;
  }

  lemma {:induction false} OccurrencesGrow(paths: seq<Path>, stem: Stem, i: nat, j: nat)
    requires i < j <= |paths| && paths[i] != [] && StemOf(paths[i]) == stem
    ensures Occurrences(paths[..i], stem) < Occurrences(paths[..j], stem)
    decreases j
  {
    assert paths[..j][..j - 1] == paths[..j - 1];
    if i < j - 1 {
      OccurrencesGrow(paths, stem, i, j - 1);
    }
  }

  lemma PathsAreUnique(events: seq<FlightEvent>, i: nat, j: nat)
    requires i < j < |events|
    ensures Paths(events)[i] != Paths(events)[j]
  {
    PathAt(events, i);
    PathAt(events, j);
    var paths := Paths(events);
    var stem := StemOf(paths[j]);
    if StemOf(paths[i]) == stem {
      OccurrencesGrow(paths, stem, i, j);
      assert paths[i][|stem.parent|].occurrence < paths[j][|stem.parent|].occurrence;
    }
  }

  lemma KeysAreUnique(events: seq<FlightEvent>)
    ensures Distinct(Keys(events))
  {
    forall i, j | 0 <= i < j < |events| ensures Keys(events)[i] != Keys(events)[j] {
      PathsAreUnique(events, i, j);
      if PathText(Paths(events)[i]) == PathText(Paths(events)[j]) {
        PathsAreDecodable(Paths(events)[i], Paths(events)[j]);
      }
    }
  }

  // ----- Index -----

  // The entry of a dictionary of counts.
  function CountAt(counts: map<string, nat>, key: string): nat {
    if key in counts then counts[key] else 0
  }

  // The entry of `paths` for one id: the text of the last of these events that has it.
  ghost predicate PathKnown(events: seq<FlightEvent>, texts: seq<string>, paths: map<Guid, string>, id: Guid)
    requires |texts| == |events|
  {
    var i := LastWithId(events, id);
    if i < |events| then id in paths && paths[id] == texts[i] else id !in paths
  }

  ghost predicate PathsKnown(events: seq<FlightEvent>, texts: seq<string>, paths: map<Guid, string>)
    requires |texts| == |events|
  {
    forall id :: PathKnown(events, texts, paths, id)
  }

  ghost predicate CountKnown(paths: seq<Path>, counts: map<string, nat>, stem: Stem) {
    CountAt(counts, stem.Text()) == Occurrences(paths, stem)
  }

  ghost predicate CountsKnown(paths: seq<Path>, counts: map<string, nat>) {
    forall stem: Stem :: CountKnown(paths, counts, stem)
  }

  lemma NextPathsKnown(events: seq<FlightEvent>, texts: seq<string>, paths: map<Guid, string>, e: FlightEvent,
                       key: string, more: seq<FlightEvent>, moreTexts: seq<string>, after: map<Guid, string>)
    requires |texts| == |events| && PathsKnown(events, texts, paths)
    requires more == events + [e] && moreTexts == texts + [key] && after == paths[e.id := key]
    ensures PathsKnown(more, moreTexts, after)
  {
    assert more[..|events|] == events;
    forall id ensures PathKnown(more, moreTexts, after, id) {
      assert PathKnown(events, texts, paths, id);
    }
  }

  lemma NextCountsKnown(paths: seq<Path>, counts: map<string, nat>, stem: Stem, path: Path, more: seq<Path>,
                        after: map<string, nat>)
    requires CountsKnown(paths, counts) && path != [] && StemOf(path) == stem
    requires more == paths + [path] && after == counts[stem.Text() := Occurrences(paths, stem) + 1]
    ensures CountsKnown(more, after)
  {
    assert more[..|paths|] == paths;
    forall other: Stem ensures CountKnown(more, after, other) {
      assert CountKnown(paths, counts, other);
      if other.Text() == stem.Text() {
        SignaturesAreDecodable(other.parent, other.kind, other.agent, other.name, stem.parent, stem.kind, stem.agent,
            stem.name);
      }
    }
  }

  lemma ParentText(events: seq<FlightEvent>, texts: seq<string>, paths: map<Guid, string>, parent: Option<Guid>,
                   eventPaths: seq<Path>)
    requires |eventPaths| == |texts| == |events| && PathsKnown(events, texts, paths)
    requires forall i | 0 <= i < |texts| :: texts[i] == PathText(eventPaths[i])
    ensures PathText(ParentPath(events, eventPaths, parent)) ==
            if parent.Some? && parent.value in paths then paths[parent.value] else ""
  {
    if parent.Some? {
      assert PathKnown(events, texts, paths, parent.value);
    }
  }

  // The result holds the first events under their keys.
  ghost predicate Indexed(events: seq<FlightEvent>, keys: seq<string>, result: map<string, FlightEvent>) {
    && |keys| <= |events|
    && (forall key :: key in result <==> key in keys)
    && (forall i | 0 <= i < |keys| :: result[keys[i]] == events[i])
  }

  lemma IndexOneMore(events: seq<FlightEvent>, keys: seq<string>, result: map<string, FlightEvent>, key: string)
    requires Indexed(events, keys, result) && |keys| < |events| && key !in keys
    ensures Indexed(events, keys + [key], result[key := events[|keys|]])
  {
  }

  // What the loop has built after n events.
  ghost predicate Indexing(events: seq<FlightEvent>, n: nat, paths: map<Guid, string>, occurrences: map<string, nat>,
                           keys: seq<string>, result: map<string, FlightEvent>) {
    && n <= |events|
    && PathsKnown(events[..n], Keys(events)[..n], paths) && CountsKnown(Paths(events)[..n], occurrences)
    && keys == Keys(events)[..n] && Indexed(events, keys, result)
  }

  lemma NewKey(events: seq<FlightEvent>, n: nat)
    requires n < |events|
    ensures Keys(events)[n] !in Keys(events)[..n]
  {
    KeysAreUnique(events);
  }

  // The three dictionaries of Index, event by event; `keys` is the order of insertion.
  method Index(events: seq<FlightEvent>) returns (keys: seq<string>, result: map<string, FlightEvent>)
    ensures keys == Keys(events) && Indexed(events, keys, result)
  {
    var paths: map<Guid, string> := map[];
    var occurrences: map<string, nat> := map[];
    result := map[];
    keys := [];
    for n := 0 to |events|
      invariant Indexing(events, n, paths, occurrences, keys, result)
    {
      var evt := events[n];
      var parentPath := if evt.parentEventId.Some? && evt.parentEventId.value in paths
          then paths[evt.parentEventId.value] else "";
      var signature := Signature(parentPath, KindText(evt.kind), evt.agentName.GetOr(""), evt.name);
      var occurrence := CountAt(occurrences, signature);
      var key := Keyed(signature, occurrence);
      NextKey(events, n, paths, occurrences, signature, occurrence, key);
      NextIndexing(events, n, paths, occurrences, keys, result, signature, occurrence, key);
      occurrences := occurrences[signature := occurrence + 1];
      paths := paths[evt.id := key];
      result := result[key := evt];
      keys := keys + [key];
    }
  }

  lemma NextIndexing(events: seq<FlightEvent>, n: nat, paths: map<Guid, string>, occurrences: map<string, nat>,
                     keys: seq<string>, result: map<string, FlightEvent>, signature: string, occurrence: nat,
                         key: string)
    requires n < |events| && Indexing(events, n, paths, occurrences, keys, result)
    requires key == Keys(events)[n]
    requires PathsKnown(events[..n + 1], Keys(events)[..n + 1], paths[events[n].id := key])
    requires CountsKnown(Paths(events)[..n + 1], occurrences[signature := occurrence + 1])
    ensures Indexing(events, n + 1, paths[events[n].id := key], occurrences[signature := occurrence + 1],
                     keys + [key], result[key := events[n]])
  {
    NewKey(events, n);
    IndexOneMore(events, keys, result, key);
    TakeOneMore(Keys(events), n);
  }

  lemma NextKey(events: seq<FlightEvent>, n: nat, paths: map<Guid, string>, counts: map<string, nat>,
                signature: string, occurrence: nat, key: string)
    requires n < |events| && PathsKnown(events[..n], Keys(events)[..n], paths)
             && CountsKnown(Paths(events)[..n], counts)
    requires var e := events[n];
      var parentPath := if e.parentEventId.Some? && e.parentEventId.value in paths then paths[e.parentEventId.value]
          else "";
      signature == Signature(parentPath, KindText(e.kind), e.agentName.GetOr(""), e.name)
    requires occurrence == CountAt(counts, signature) && key == Keyed(signature, occurrence)
    ensures key == Keys(events)[n]
    ensures PathsKnown(events[..n + 1], Keys(events)[..n + 1], paths[events[n].id := key])
    ensures CountsKnown(Paths(events)[..n + 1], counts[signature := occurrence + 1])
  {
    var before, beforePaths, beforeTexts := Prefixes(events, n);
    KnownOneMore(before, beforePaths, beforeTexts, paths, counts, events[n], Paths(events)[n], signature, occurrence,
        key);
  }

  // What the first n events and the next one say of the first n + 1.
  lemma Prefixes(events: seq<FlightEvent>, n: nat)
    returns (before: seq<FlightEvent>, beforePaths: seq<Path>, beforeTexts: seq<string>)
    requires n < |events|
    ensures before == events[..n] && beforePaths == Paths(events)[..n] && beforeTexts == Keys(events)[..n]
    ensures |before| == |beforePaths| == |beforeTexts| == n
    ensures forall i | 0 <= i < n :: beforeTexts[i] == PathText(beforePaths[i])
    ensures var stem := EventStem(before, beforePaths, events[n]);
            Paths(events)[n] == stem.At(Occurrences(beforePaths, stem)) && StemOf(Paths(events)[n]) == stem
    ensures events[..n + 1] == before + [events[n]]
    ensures Paths(events)[..n + 1] == beforePaths + [Paths(events)[n]]
    ensures Keys(events)[..n + 1] == beforeTexts + [PathText(Paths(events)[n])]
  {
    before, beforePaths, beforeTexts := events[..n], Paths(events)[..n], Keys(events)[..n];
    PathAt(events, n);
    TakeOneMore(events, n);
    TakeOneMore(Paths(events), n);
    TakeOneMore(Keys(events), n);
  }

  // One more event, given the path it has.
  lemma KnownOneMore(events: seq<FlightEvent>, eventPaths: seq<Path>, texts: seq<string>, paths: map<Guid, string>,
                     counts: map<string, nat>,
                     e: FlightEvent, path: Path, signature: string, occurrence: nat, key: string)
    requires |events| == |eventPaths| == |texts| && forall i | 0 <= i < |texts| :: texts[i] == PathText(eventPaths[i])
    requires PathsKnown(events, texts, paths) && CountsKnown(eventPaths, counts)
    requires var stem := EventStem(events, eventPaths, e);
             path == stem.At(Occurrences(eventPaths, stem)) && StemOf(path) == stem
    requires var parentPath := if e.parentEventId.Some? && e.parentEventId.value in paths
             then paths[e.parentEventId.value] else "";
      signature == Signature(parentPath, KindText(e.kind), e.agentName.GetOr(""), e.name)
    requires occurrence == CountAt(counts, signature) && key == Keyed(signature, occurrence)
    ensures key == PathText(path)
    ensures PathsKnown(events + [e], texts + [PathText(path)], paths[e.id := key])
    ensures CountsKnown(eventPaths + [path], counts[signature := occurrence + 1])
  {
    ParentText(events, texts, paths, e.parentEventId, eventPaths);
    NextKeyOfStem(eventPaths, counts, EventStem(events, eventPaths, e), path, eventPaths + [path], signature,
        occurrence);
    NextPathsKnown(events, texts, paths, e, key, events + [e], texts + [PathText(path)], paths[e.id := key]);
  }

  lemma NextKeyOfStem(earlier: seq<Path>, counts: map<string, nat>, stem: Stem, path: Path, more: seq<Path>,
                      signature: string, occurrence: nat)
    requires CountsKnown(earlier, counts) && more == earlier + [path]
    requires path == stem.At(Occurrences(earlier, stem)) && StemOf(path) == stem
    requires signature == stem.Text() && occurrence == CountAt(counts, signature)
    ensures PathText(path) == Keyed(signature, occurrence)
    ensures CountsKnown(more, counts[signature := occurrence + 1])
  {
    CountOfStem(earlier, counts, stem, signature, occurrence);
    StemText(stem, occurrence);
    NextCountsKnown(earlier, counts, stem, path, more, counts[signature := occurrence + 1]);
  }

  lemma CountOfStem(earlier: seq<Path>, counts: map<string, nat>, stem: Stem, signature: string, occurrence: nat)
    requires CountsKnown(earlier, counts) && signature == stem.Text() && occurrence == CountAt(counts, signature)
    ensures occurrence == Occurrences(earlier, stem)
  {
    assert CountKnown(earlier, counts, stem);
  }

  lemma TakeOneMore<T>(s: seq<T>, n: nat)
    requires n < |s|
    ensures s[..n + 1] == s[..n] + [s[n]]
  {
  }

  lemma StemText(stem: Stem, n: nat)
    ensures PathText(stem.At(n)) == Keyed(stem.Text(), n)
  {
    assert stem.At(n)[..|stem.parent|] == stem.parent;
  }
}
