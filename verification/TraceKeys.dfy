/**
 The keys trace comparison matches events by (TraceViewService.Index): the path from a
 root event down, each step its type, agent, name and occurrence, joined into one text.
 */
module TraceKeys {
  import opened Results
  import opened JsonText

  datatype Segment = Segment(kind: string, agent: string, name: string, occurrence: nat)

  type Path = seq<Segment>

  // JsonSerializer.Serialize(new[] { type, agent, name })
  function Heading(kind: string, agent: string, name: string): string {
    "[" + (Quoted(kind) + ("," + (Quoted(agent) + ("," + (Quoted(name) + "]")))))
  }

  function Quoted(text: string): string {
    "\"" + Escape(text) + "\""
  }

  // $"{signature}#{occurrence}/" with the parent's path in front.
  function Keyed(signature: string, occurrence: nat): string {
    signature + "#" + Digits(occurrence) + "/"
  }

  function Signature(parent: string, kind: string, agent: string, name: string): string {
    parent + Heading(kind, agent, name)
  }

  function PathText(path: Path): string {
    if path == [] then ""
    else
      var last := path[|path| - 1];
      Keyed(Signature(PathText(path[..|path| - 1]), last.kind, last.agent, last.name), last.occurrence)
  }

  // ----- Decoding a path -----

  function SegmentText(s: Segment): string {
    Keyed(Heading(s.kind, s.agent, s.name), s.occurrence)
  }

  function Expect(s: string, prefix: string): Option<string> {
    if prefix <= s then Some(s[|prefix|..]) else None
  }

  function ReadQuoted(s: string): Option<(string, string)> {
    match Expect(s, "\"")
    case None => None
    case Some(t) => ReadText(t)
  }

  // A segment at the head of s, and what follows it.
  function ReadSegment(s: string): Option<(Segment, string)> {
    match Expect(s, "[")
    case None => None
    case Some(s1) =>
      match ReadQuoted(s1)
      case None => None
      case Some((kind, s2)) =>
        match Expect(s2, ",")
        case None => None
        case Some(s3) =>
          match ReadQuoted(s3)
          case None => None
          case Some((agent, s4)) =>
            match Expect(s4, ",")
            case None => None
            case Some(s5) =>
              match ReadQuoted(s5)
              case None => None
              case Some((name, s6)) =>
                match Expect(s6, "]#")
                case None => None
                case Some(s7) =>
                  match ReadNumber(s7)
                  case None => None
                  case Some((n, rest)) => Some((Segment(kind, agent, name, n), rest))
  }

  function ReadPath(s: string): Option<Path>
    decreases |s|
  {
    if s == "" then Some([])
    else match ReadSegment(s)
      case None => None
      case Some((segment, rest)) =>
        if |rest| >= |s| then None
        else match ReadPath(rest)
          case None => None
          case Some(path) => Some([segment] + path)
  }

  lemma ExpectReadsBack(prefix: string, rest: string)
    ensures Expect(prefix + rest, prefix) == Some(rest)
  {
    assert (prefix + rest)[..|prefix|] == prefix;
    assert (prefix + rest)[|prefix|..] == rest;
  }

  lemma QuotedReadsBack(text: string, rest: string)
    ensures ReadQuoted(Quoted(text) + rest) == Some((text, rest))
  {
    assert Quoted(text) + rest == "\"" + (Escape(text) + "\"" + rest);
    ExpectReadsBack("\"", Escape(text) + "\"" + rest);
    TextReadsBack(text, rest);
  }

  lemma Associates(a: string, b: string, c: string)
    ensures (a + b) + c == a + (b + c)
  {
  }

  // A segment and what follows it, bracketed the way it is read.
  lemma SegmentReads(s: Segment, rest: string)
    ensures SegmentText(s) + rest ==
            "[" + (Quoted(s.kind) + (","
                + (Quoted(s.agent) + ("," + (Quoted(s.name) + ("]#" + (Digits(s.occurrence) + "/" + rest)))))))
  {
    var tail := "#" + Digits(s.occurrence) + "/" + rest;
    var a5 := Quoted(s.name) + "]";
    var a4 := "," + a5;
    var a3 := Quoted(s.agent) + a4;
    var a2 := "," + a3;
    var a1 := Quoted(s.kind) + a2;
    assert SegmentText(s) + rest == ("[" + a1) + tail;
    Associates("[", a1, tail);
    Associates(Quoted(s.kind), a2, tail);
    Associates(",", a3, tail);
    Associates(Quoted(s.agent), a4, tail);
    Associates(",", a5, tail);
    Associates(Quoted(s.name), "]", tail);
    assert "]" + tail == "]#" + (Digits(s.occurrence) + "/" + rest);
  }

  lemma TailReadsBack(name: string, n: nat, rest: string)
    ensures var s6 := "]#" + (Digits(n) + "/" + rest);
            && ReadQuoted(Quoted(name) + s6) == Some((name, s6))
            && Expect(s6, "]#") == Some(Digits(n) + "/" + rest)
            && ReadNumber(Digits(n) + "/" + rest) == Some((n, rest))
  {
    QuotedReadsBack(name, "]#" + (Digits(n) + "/" + rest));
    ExpectReadsBack("]#", Digits(n) + "/" + rest);
    NumberReadsBack(n, rest);
  }

  lemma ReadsInTurn(s: Segment, rest: string, s5: string, s3: string, s1: string)
    requires s5 == Quoted(s.name) + ("]#" + (Digits(s.occurrence) + "/" + rest))
    requires s3 == Quoted(s.agent) + ("," + s5) && s1 == Quoted(s.kind) + ("," + s3)
    ensures ReadSegment("[" + s1) == Some((s, rest))
  {
    TailReadsBack(s.name, s.occurrence, rest);
    ExpectReadsBack(",", s5);
    QuotedReadsBack(s.agent, "," + s5);
    ExpectReadsBack(",", s3);
    QuotedReadsBack(s.kind, "," + s3);
    ExpectReadsBack("[", s1);
  }

  lemma SegmentReadsBack(s: Segment, rest: string)
    ensures ReadSegment(SegmentText(s) + rest) == Some((s, rest))
  {
    SegmentReads(s, rest);
    var s5 := Quoted(s.name) + ("]#" + (Digits(s.occurrence) + "/" + rest));
    var s3 := Quoted(s.agent) + ("," + s5);
    ReadsInTurn(s, rest, s5, s3, Quoted(s.kind) + ("," + s3));
  }

  lemma PathTextOfSnoc(path: Path, last: Segment)
    ensures PathText(path + [last]) == PathText(path) + SegmentText(last)
  {
    assert (path + [last])[..|path|] == path;
    var parent, heading := PathText(path), Heading(last.kind, last.agent, last.name);
    var tail := "#" + Digits(last.occurrence) + "/";
    assert Keyed(parent + heading, last.occurrence) == (parent + heading) + tail;
    Associates(parent, heading, tail);
    assert SegmentText(last) == heading + tail;
  }

  lemma FromFrontOneMore(path: Path, init: Path, last: Segment)
    requires init != [] && path == init + [last]
    requires PathText(init) == SegmentText(init[0]) + PathText(init[1..])
    ensures PathText(path) == SegmentText(path[0]) + PathText(path[1..])
  {
    var rest := init[1..];
    PathTextOfSnoc(init, last);
    PathTextOfSnoc(rest, last);
    assert path[1..] == rest + [last] && path[0] == init[0];
    Regroups(PathText(init), SegmentText(init[0]), PathText(rest), SegmentText(last));
  }

  lemma Regroups(whole: string, first: string, middle: string, last: string)
    requires whole == first + middle
    ensures whole + last == first + (middle + last)
  {
  }

  // A path is the texts of its segments one after another.
  lemma {:induction false} PathTextFromFront(path: Path)
    requires path != []
    ensures PathText(path) == SegmentText(path[0]) + PathText(path[1..])
  {
    var init, last := path[..|path| - 1], path[|path| - 1];
    assert path == init + [last];
    if init != [] {
      PathTextFromFront(init);
      FromFrontOneMore(path, init, last);
    } else {
      PathTextOfSnoc(init, last);
      assert path[1..] == [];
    }
  }

  lemma {:induction false} PathReadsBack(path: Path)
    ensures ReadPath(PathText(path)) == Some(path)
  {
    if path != [] {
      PathTextFromFront(path);
      PathReadsBack(path[1..]);
      ReadsOneMore(path[0], PathText(path[1..]), path[1..]);
      assert [path[0]] + path[1..] == path;
    }
  }

  lemma ReadsOneMore(first: Segment, text: string, rest: Path)
    requires ReadPath(text) == Some(rest)
    ensures ReadPath(SegmentText(first) + text) == Some([first] + rest)
  {
    SegmentReadsBack(first, text);
    assert |SegmentText(first)| > 0;
  }

  // Two paths with the same text are the same path.
  lemma PathsAreDecodable(a: Path, b: Path)
    requires PathText(a) == PathText(b)
    ensures a == b
  {
    PathReadsBack(a);
    PathReadsBack(b);
  }

  // Two signatures agree only for the same parent path, type, agent and name.
  lemma SignaturesAreDecodable(a: Path, kind: string, agent: string, name: string, b: Path, kind': string,
                               agent': string, name': string)
    requires Signature(PathText(a), kind, agent, name) == Signature(PathText(b), kind', agent', name')
    ensures a == b && kind == kind' && agent == agent' && name == name'
  {
    var x, y := a + [Segment(kind, agent, name, 0)], b + [Segment(kind', agent', name', 0)];
    assert x[..|a|] == a && y[..|b|] == b;
    PathsAreDecodable(x, y);
    assert x[|a|] == Segment(kind, agent, name, 0);
  }
}
