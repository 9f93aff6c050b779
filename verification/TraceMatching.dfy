/**
 Which events of two runs a comparison pairs, said without the keys: the n-th of its kind,
 agent and name below a matched parent, or at the top.
 */
module TraceMatching {
  import opened Results
  import opened Totals
  import opened Trace
  import Decoding
  import JsonText
  import opened TraceKeys
  import opened TraceIndex
  import opened TraceCompare

  // The two events of a run share parent, kind, agent and name.
  ghost predicate Alike(events: seq<FlightEvent>, k: nat, i: nat) {
    && k < |events| && i < |events|
    && events[k].parentEventId == events[i].parentEventId && events[k].kind == events[i].kind
    && events[k].agentName.GetOr("") == events[i].agentName.GetOr("") && events[k].name == events[i].name
  }

  // The events before the n-th that are like event i.
  ghost function AlikeBefore(events: seq<FlightEvent>, i: nat, n: nat): set<nat> {
    set k: nat | k < n && Alike(events, k, i)
  }

  // An event's path names its parent's path, kind, agent, name and occurrence.
  lemma PathParts(events: seq<FlightEvent>, i: nat) returns (stem: Stem, p: nat)
    requires Decoding.WellOrdered(events) && i < |events|
    ensures Paths(events)[i] != [] && StemOf(Paths(events)[i]) == stem
    ensures Paths(events)[i] == stem.At(Occurrences(Paths(events)[..i], stem))
    ensures stem == Stem(stem.parent, KindText(events[i].kind), events[i].agentName.GetOr(""), events[i].name)
    ensures events[i].parentEventId.None? ==> stem.parent == []
    ensures events[i].parentEventId.Some? ==>
              p < i && events[p].id == events[i].parentEventId.value && Paths(events)[p] == stem.parent
              && stem.parent != []
  {
    PathAt(events, i);
    stem := StemOf(Paths(events)[i]);
    var parent, q, n := ParentPart(events, i);
    p := q;
    SnocsAgree(parent, Segment(KindText(events[i].kind), events[i].agentName.GetOr(""), events[i].name, n),
               stem.parent, Paths(events)[i][|stem.parent|]);
  }

  lemma OneWithPath(events: seq<FlightEvent>, p: nat, q: nat)
    requires p < |events| && q < |events| && Paths(events)[p] == Paths(events)[q]
    ensures p == q
  {
    if p < q { PathsAreUnique(events, p, q); } else if q < p { PathsAreUnique(events, q, p); }
  }

  lemma OneWithId(events: seq<FlightEvent>, p: nat, q: nat)
    requires Decoding.WellOrdered(events) && p < |events| && q < |events| && events[p].id == events[q].id
    ensures p == q
  {
  }

  ghost predicate SameStem(events: seq<FlightEvent>, k: nat, i: nat) {
    && k < |events| && i < |events| && Paths(events)[k] != [] && Paths(events)[i] != []
    && StemOf(Paths(events)[k]) == StemOf(Paths(events)[i])
  }

  lemma AlikeIsSameStem(events: seq<FlightEvent>, k: nat, i: nat)
    requires Decoding.WellOrdered(events) && k < |events| && i < |events|
    ensures SameStem(events, k, i) <==> Alike(events, k, i)
  {
    var a, p := PathParts(events, k);
    var b, q := PathParts(events, i);
    KindsAreTold(events[k].kind, events[i].kind);
    if events[k].parentEventId.Some? && events[i].parentEventId.Some? {
      if a == b {
        OneWithPath(events, p, q);
      } else if events[k].parentEventId == events[i].parentEventId {
        OneWithId(events, p, q);
      }
    }
  }

  lemma OneMoreAlike(events: seq<FlightEvent>, i: nat, n: nat)
    requires 0 < n
    ensures |AlikeBefore(events, i, n)| ==
            |AlikeBefore(events, i, n - 1)| + if Alike(events, n - 1, i) then 1 else 0
  {
    var fewer := AlikeBefore(events, i, n - 1);
    assert AlikeBefore(events, i, n) == if Alike(events, n - 1, i) then fewer + {n - 1} else fewer;
  }

  lemma {:induction false} OccurrencesAre(events: seq<FlightEvent>, i: nat, n: nat)
    requires Decoding.WellOrdered(events) && n <= i < |events|
    ensures Paths(events)[i] != []
    ensures Occurrences(Paths(events)[..n], StemOf(Paths(events)[i])) == |AlikeBefore(events, i, n)|
  {
    PathAt(events, i);
    if n == 0 {
      assert AlikeBefore(events, i, 0) == {};
    } else {
      OccurrencesAre(events, i, n - 1);
      AlikeIsSameStem(events, n - 1, i);
      PathAt(events, n - 1);
      assert Paths(events)[..n][..n - 1] == Paths(events)[..n - 1];
      OneMoreAlike(events, i, n);
    }
  }

  // The parents of the two events are matched, or both are at the top.
  ghost predicate ParentsMatched(baseline: seq<FlightEvent>, candidate: seq<FlightEvent>, i: nat, j: nat)
    requires i < |baseline| && j < |candidate|
  {
    if baseline[i].parentEventId.None? then candidate[j].parentEventId.None?
    else
      && candidate[j].parentEventId.Some?
      && exists p, q | Matched(baseline, candidate, p, q) ::
           baseline[p].id == baseline[i].parentEventId.value && candidate[q].id == candidate[j].parentEventId.value
  }

  lemma MatchedPaths(baseline: seq<FlightEvent>, candidate: seq<FlightEvent>, i: nat, j: nat)
    requires i < |baseline| && j < |candidate|
    ensures Matched(baseline, candidate, i, j) <==> Paths(baseline)[i] == Paths(candidate)[j]
  {
    if PathText(Paths(baseline)[i]) == PathText(Paths(candidate)[j]) {
      PathsAreDecodable(Paths(baseline)[i], Paths(candidate)[j]);
    }
  }

  lemma ParentsByPath(baseline: seq<FlightEvent>, candidate: seq<FlightEvent>, i: nat, j: nat, p: nat, q: nat)
    requires Decoding.WellOrdered(baseline) && Decoding.WellOrdered(candidate) && i < |baseline| && j < |candidate|
    requires p < |baseline| && baseline[i].parentEventId == Some(baseline[p].id)
    requires q < |candidate| && candidate[j].parentEventId == Some(candidate[q].id)
    ensures ParentsMatched(baseline, candidate, i, j) <==> Paths(baseline)[p] == Paths(candidate)[q]
  {
    MatchedPaths(baseline, candidate, p, q);
    if ParentsMatched(baseline, candidate, i, j) {
      var r, s :| Matched(baseline, candidate, r, s) && baseline[r].id == baseline[i].parentEventId.value
          && candidate[s].id == candidate[j].parentEventId.value;
      OneWithId(baseline, r, p);
      OneWithId(candidate, s, q);
    }
  }

  // Two events are paired exactly when they agree in kind, agent and name, their parents are
  // paired, and each has as many earlier siblings like it.
  lemma MatchedExactly(baseline: seq<FlightEvent>, candidate: seq<FlightEvent>, i: nat, j: nat)
    requires Decoding.WellOrdered(baseline) && Decoding.WellOrdered(candidate) && i < |baseline| && j < |candidate|
    ensures Matched(baseline, candidate, i, j) <==>
            && baseline[i].kind == candidate[j].kind && baseline[i].name == candidate[j].name
            && baseline[i].agentName.GetOr("") == candidate[j].agentName.GetOr("")
            && ParentsMatched(baseline, candidate, i, j)
            && |AlikeBefore(baseline, i, i)| == |AlikeBefore(candidate, j, j)|
  {
    OccurrencesAre(baseline, i, i);
    OccurrencesAre(candidate, j, j);
    var a, p := PathParts(baseline, i);
    var b, q := PathParts(candidate, j);
    KindsAreTold(baseline[i].kind, candidate[j].kind);
    MatchedPaths(baseline, candidate, i, j);
    if a.At(|AlikeBefore(baseline, i, i)|) == b.At(|AlikeBefore(candidate, j, j)|) {
      StemAndOccurrence(a, |AlikeBefore(baseline, i, i)|);
      StemAndOccurrence(b, |AlikeBefore(candidate, j, j)|);
      SnocsAgree(a.parent, a.At(|AlikeBefore(baseline, i, i)|)[|a.parent|],
                 b.parent, b.At(|AlikeBefore(candidate, j, j)|)[|b.parent|]);
    }
    if baseline[i].parentEventId.Some? && candidate[j].parentEventId.Some? {
      ParentsByPath(baseline, candidate, i, j, p, q);
    }
  }

  // ----- What a key says -----

  function NameOfKind(kind: EventKind): string {
    match kind
    case RunEvent => "Run"
    case AgentSpan => "AgentSpan"
    case ModelCall => "ModelCall"
    case ToolCall => "ToolCall"
    case PolicyDecision => "PolicyDecision"
  }

  function JsonQuoted(text: string): string {
    "\"" + JsonText.Escape(text) + "\""
  }

  // A JSON list of an event's kind, agent and name.
  function ListOf(e: FlightEvent): string {
    "[" + (JsonQuoted(NameOfKind(e.kind))
        + ("," + (JsonQuoted(e.agentName.GetOr("")) + ("," + (JsonQuoted(e.name) + "]")))))
  }

  lemma StemIsText(stem: Stem, e: FlightEvent, n: nat)
    requires stem == Stem(stem.parent, KindText(e.kind), e.agentName.GetOr(""), e.name)
    ensures PathText(stem.At(n)) == PathText(stem.parent) + ListOf(e) + "#" + JsonText.Digits(n) + "/"
  {
    assert stem.At(n)[..|stem.parent|] == stem.parent;
  }

  // The key of an event: its parent's key, that list, and how many earlier siblings are like it.
  lemma KeyIs(events: seq<FlightEvent>, i: nat) returns (p: nat)
    requires Decoding.WellOrdered(events) && i < |events|
    ensures events[i].parentEventId.Some? ==> p < i && events[p].id == events[i].parentEventId.value
    ensures Keys(events)[i] ==
            (if events[i].parentEventId.Some? then Keys(events)[p] else "") + ListOf(events[i])
            + "#" + JsonText.Digits(|AlikeBefore(events, i, i)|) + "/"
  {
    var stem, q := PathParts(events, i);
    p := q;
    OccurrencesAre(events, i, i);
    StemIsText(stem, events[i], |AlikeBefore(events, i, i)|);
    assert Keys(events)[i] == PathText(Paths(events)[i]);
  }

  // ----- The order of the rows -----

  // The others are the keys at these places, in increasing order, and unknown.
  ghost predicate StandAt(others: seq<string>, keys: seq<string>, known: seq<string>, places: seq<nat>) {
    && |places| == |others| && Increasing(places)
    && forall k | 0 <= k < |places| :: places[k] < |keys| && others[k] == keys[places[k]] && others[k] !in known
  }

  lemma StandOneMore(others: seq<string>, keys: seq<string>, known: seq<string>, places: seq<nat>, key: string)
    requires StandAt(others, keys, known, places)
    ensures StandAt(others, keys + [key], known, places)
    ensures key !in known ==> StandAt(others + [key], keys + [key], known, places + [|keys|])
  {
  }

  lemma {:induction false} OthersInOrder(keys: seq<string>, known: seq<string>) returns (places: seq<nat>)
    ensures StandAt(Others(keys, known), keys, known, places)
  {
    if keys == [] {
      places := [];
    } else {
      var init, last := keys[..|keys| - 1], keys[|keys| - 1];
      var earlier := OthersInOrder(init, known);
      StandOneMore(Others(init, known), init, known, earlier, last);
      assert keys == init + [last] && Others(init, known) + [] == Others(init, known);
      places := if last in known then earlier else earlier + [|init|];
    }
  }

  lemma RowOfKey(baseline: seq<FlightEvent>, candidate: seq<FlightEvent>, q: nat)
    requires q < |ComparedKeys(baseline, candidate)|
    ensures |Rows(baseline, candidate)| == |ComparedKeys(baseline, candidate)|
    ensures Rows(baseline, candidate)[q] == RowAt(baseline, candidate, ComparedKeys(baseline, candidate)[q])
  {
  }

  lemma OtherRow(baseline: seq<FlightEvent>, candidate: seq<FlightEvent>, j: nat)
    requires j < |candidate| && Keys(candidate)[j] !in Keys(baseline)
    ensures var row := RowAt(baseline, candidate, Keys(candidate)[j]);
            row.baseline.None? && row.candidate == Some(candidate[j])
  {
    EventAtItsKey(candidate, j);
    HasEventWith(baseline, Keys(candidate)[j]);
  }

  lemma BaselineRowAt(baseline: seq<FlightEvent>, candidate: seq<FlightEvent>, i: nat)
    requires i < |baseline|
    ensures i < |Rows(baseline, candidate)| && Rows(baseline, candidate)[i].baseline == Some(baseline[i])
  {
    RowOfKey(baseline, candidate, i);
    EventAtItsKey(baseline, i);
  }

  lemma BehindFirst(first: seq<string>, rest: seq<string>, all: seq<string>, q: nat)
    requires all == first + rest && q < |rest|
    ensures all[|first| + q] == rest[q]
  {
  }

  // The rows from q on hold no event of the baseline, and the candidate's at these places.
  ghost predicate AreOthers(rows: seq<Row>, q: nat, candidate: seq<FlightEvent>, places: seq<nat>) {
    && |rows| == q + |places| && Increasing(places)
    && forall p | q <= p < |rows| :: IsOther(rows[p], candidate, places[p - q])
  }

  ghost predicate IsOther(row: Row, candidate: seq<FlightEvent>, j: nat) {
    j < |candidate| && row.baseline.None? && row.candidate == Some(candidate[j])
  }

  ghost predicate AreRowsOf(rows: seq<Row>, keys: seq<string>, baseline: seq<FlightEvent>,
                            candidate: seq<FlightEvent>) {
    |rows| == |keys| && forall p | 0 <= p < |rows| :: rows[p] == RowAt(baseline, candidate, keys[p])
  }

  lemma RowsAreOfKeys(baseline: seq<FlightEvent>, candidate: seq<FlightEvent>)
    ensures AreRowsOf(Rows(baseline, candidate), ComparedKeys(baseline, candidate), baseline, candidate)
  {
    RowsHaveTheirKeys(baseline, candidate);
    forall p | 0 <= p < |Rows(baseline, candidate)|
      ensures Rows(baseline, candidate)[p] == RowAt(baseline, candidate, ComparedKeys(baseline, candidate)[p])
    {
      RowOfKey(baseline, candidate, p);
    }
  }

  lemma OtherRowAt(baseline: seq<FlightEvent>, candidate: seq<FlightEvent>, row: Row, key: string, j: nat)
    requires row == RowAt(baseline, candidate, key) && j < |candidate|
    requires key == Keys(candidate)[j] && key !in Keys(baseline)
    ensures IsOther(row, candidate, j)
  {
    OtherRow(baseline, candidate, j);
  }

  // The keys are those of the candidate's events at these places, which the baseline lacks.
  ghost predicate AreKeysAt(others: seq<string>, baseline: seq<FlightEvent>, candidate: seq<FlightEvent>,
                            places: seq<nat>) {
    && |places| == |others|
    && forall k | 0 <= k < |places| ::
         places[k] < |candidate| && others[k] == Keys(candidate)[places[k]] && others[k] !in Keys(baseline)
  }

  lemma OtherRows(baseline: seq<FlightEvent>, candidate: seq<FlightEvent>, rows: seq<Row>, first: seq<string>,
                  others: seq<string>, keys: seq<string>, places: seq<nat>, p: nat)
    requires keys == first + others && AreRowsOf(rows, keys, baseline, candidate)
    requires AreKeysAt(others, baseline, candidate, places) && |first| <= p < |rows|
    ensures IsOther(rows[p], candidate, places[p - |first|])
  {
    BehindFirst(first, others, keys, p - |first|);
    OtherRowAt(baseline, candidate, rows[p], keys[p], places[p - |first|]);
  }

  lemma OthersOfRows(baseline: seq<FlightEvent>, candidate: seq<FlightEvent>, rows: seq<Row>, first: seq<string>,
                     others: seq<string>, keys: seq<string>, places: seq<nat>)
    requires keys == first + others && AreRowsOf(rows, keys, baseline, candidate)
    requires AreKeysAt(others, baseline, candidate, places) && Increasing(places)
    ensures AreOthers(rows, |first|, candidate, places)
  {
    forall p | |first| <= p < |rows| ensures IsOther(rows[p], candidate, places[p - |first|]) {
      OtherRows(baseline, candidate, rows, first, others, keys, places, p);
    }
  }

  lemma OthersAreAt(baseline: seq<FlightEvent>, candidate: seq<FlightEvent>) returns (places: seq<nat>)
    ensures AreKeysAt(Others(Keys(candidate), Keys(baseline)), baseline, candidate, places) && Increasing(places)
  {
    places := OthersInOrder(Keys(candidate), Keys(baseline));
  }

  // The rows of the baseline's events come first, in their order, and behind them the rows
  // of those events of the candidate that have no counterpart, in theirs.
  lemma RowsAreInOrder(baseline: seq<FlightEvent>, candidate: seq<FlightEvent>) returns (places: seq<nat>)
    ensures AreOthers(Rows(baseline, candidate), |baseline|, candidate, places)
    ensures forall i | 0 <= i < |baseline| :: Rows(baseline, candidate)[i].baseline == Some(baseline[i])
  {
    RowsAreOfKeys(baseline, candidate);
    places := OthersAreAt(baseline, candidate);
    OthersOfRows(baseline, candidate, Rows(baseline, candidate), Keys(baseline),
                 Others(Keys(candidate), Keys(baseline)), ComparedKeys(baseline, candidate), places);
    forall i | 0 <= i < |baseline| ensures Rows(baseline, candidate)[i].baseline == Some(baseline[i]) {
      BaselineRowAt(baseline, candidate, i);
    }
  }
}
