/**
 That the premises on the badge link can be met: when numbers print so that they can be told
 apart, two flat objects that print alike are one object, so some parser reads every printed
 object back.
 */
module BadgeReading {
  import opened Results
  import opened BadgeFrames
  import JsonText

  // Neither a comma nor a brace cuts the text short.
  predicate IsUncut(s: string) {
    forall i | 0 <= i < |s| :: s[i] != ',' && s[i] != '}'
  }

  // Such a text that is taken neither for null nor for a quoted one.
  predicate IsPlain(s: string) {
    s != "" && s[0] != '"' && s != "null" && IsUncut(s)
  }

  // Numbers print plainly, and no two of them alike.
  ghost predicate TellsNumbersApart(w: Wire) {
    && (forall n: real | n in w.numbers :: IsPlain(w.number(n)))
    && (forall m: real, n: real | m in w.numbers && n in w.numbers && w.number(m) == w.number(n) :: m == n)
  }

  // ----- Quoted texts -----

  function EscapedChar(c: char): string {
    if c == '"' || c == '\\' then ['\\', c] else [c]
  }

  lemma {:induction false} EscapedOfCons(s: string)
    requires s != ""
    ensures Escaped(s) == EscapedChar(s[0]) + Escaped(s[1..])
  {
    if |s| == 1 {
      assert s[..0] == "" && s[1..] == "";
    } else {
      EscapedOfCons(s[..|s| - 1]);
      assert s[1..][..|s| - 2] == s[..|s| - 1][1..];
    }
  }

  lemma FirstOfQuoted(s: string, x: string)
    ensures (Escaped(s) + "\"" + x)[0] == '"' <==> s == ""
  {
    if s != "" {
      EscapedOfCons(s);
      assert (Escaped(s) + "\"" + x)[0] == EscapedChar(s[0])[0];
    }
  }

  // A quoted text ends at its own closing quote.
  lemma {:induction false} EscapedIsDecodable(a: string, b: string, x: string, y: string)
    requires Escaped(a) + "\"" + x == Escaped(b) + "\"" + y
    ensures a == b
    decreases |a|
  {
    FirstOfQuoted(a, x);
    FirstOfQuoted(b, y);
    if a != "" {
      RestIsAlike(a, b, x, y);
      EscapedIsDecodable(a[1..], b[1..], x, y);
    }
  }

  lemma QuotedFromFront(s: string, x: string)
    requires s != ""
    ensures Escaped(s) + "\"" + x == EscapedChar(s[0]) + (Escaped(s[1..]) + "\"" + x)
  {
    EscapedOfCons(s);
    Regroups(EscapedChar(s[0]), Escaped(s[1..]), "\"", x);
  }

  lemma Regroups(first: string, rest: string, quote: string, x: string)
    ensures (first + rest) + quote + x == first + (rest + quote + x)
  {
  }

  lemma RestIsAlike(a: string, b: string, x: string, y: string)
    requires a != "" && b != "" && Escaped(a) + "\"" + x == Escaped(b) + "\"" + y
    ensures a[0] == b[0] && Escaped(a[1..]) + "\"" + x == Escaped(b[1..]) + "\"" + y
  {
    QuotedFromFront(a, x);
    QuotedFromFront(b, y);
    FirstIsDecodable(a[0], b[0], Escaped(a[1..]) + "\"" + x, Escaped(b[1..]) + "\"" + y, Escaped(a) + "\"" + x);
  }

  lemma FirstIsDecodable(a: char, b: char, x: string, y: string, s: string)
    requires s == EscapedChar(a) + x && s == EscapedChar(b) + y
    ensures a == b && x == y
  {
    assert s[0] == EscapedChar(a)[0] && s[0] == EscapedChar(b)[0];
    if |EscapedChar(a)| == 2 {
      assert s[1] == a && s[1] == b;
    }
    assert x == s[|EscapedChar(a)|..] && y == s[|EscapedChar(b)|..];
  }

  // ----- Values -----

  // What follows a value in an object.
  predicate Ends(s: string) {
    s != "" && (s[0] == ',' || s[0] == '}')
  }

  predicate IsTellable(w: Wire, v: Value) {
    v.Null? || (v.Number? && v.n in w.numbers) || v.Text?
  }

  lemma UncutIsNoLonger(a: string, b: string, x: string, y: string)
    requires IsUncut(b) && Ends(x) && a + x == b + y
    ensures |b| <= |a|
  {
    assert (a + x)[|a|] == x[0];
    assert forall i | 0 <= i < |b| :: (b + y)[i] == b[i];
  }

  lemma EqualStarts(a: string, b: string, x: string, y: string)
    requires a + x == b + y && |a| == |b|
    ensures a == b && x == y
  {
    assert (a + x)[..|a|] == a && (b + y)[..|b|] == b;
    assert (a + x)[|a|..] == x && (b + y)[|b|..] == y;
  }

  lemma UncutIsDecodable(a: string, b: string, x: string, y: string)
    requires IsUncut(a) && IsUncut(b) && Ends(x) && Ends(y) && a + x == b + y
    ensures a == b && x == y
  {
    UncutIsNoLonger(a, b, x, y);
    UncutIsNoLonger(b, a, y, x);
    EqualStarts(a, b, x, y);
  }

  lemma QuotedIsDecodable(a: string, b: string, x: string, y: string)
    requires Quoted(a) + x == Quoted(b) + y
    ensures a == b && x == y
  {
    assert (Quoted(a) + x)[1..] == Escaped(a) + "\"" + x;
    assert (Quoted(b) + y)[1..] == Escaped(b) + "\"" + y;
    EscapedIsDecodable(a, b, x, y);
    EqualStarts(Quoted(a), Quoted(b), x, y);
  }

  // A value that is no text prints uncut and does not begin with a quote.
  lemma BareIsUncut(w: Wire, v: Value)
    requires TellsNumbersApart(w) && IsTellable(w, v) && !v.Text?
    ensures IsUncut(ValueText(w, v)) && ValueText(w, v) != "" && ValueText(w, v)[0] != '"'
  {
    assert "null" == ['n', 'u', 'l', 'l'];
  }

  // A value ends where the text says it does, and its text tells it from every other value.
  lemma ValueIsDecodable(w: Wire, a: Value, b: Value, x: string, y: string)
    requires TellsNumbersApart(w) && IsTellable(w, a) && IsTellable(w, b) && Ends(x) && Ends(y)
    requires ValueText(w, a) + x == ValueText(w, b) + y
    ensures a == b && x == y
  {
    assert (ValueText(w, a) + x)[0] == (ValueText(w, b) + y)[0];
    if a.Text? && b.Text? {
      QuotedIsDecodable(a.s, b.s, x, y);
    } else if !a.Text? && !b.Text? {
      BareIsUncut(w, a);
      BareIsUncut(w, b);
      UncutIsDecodable(ValueText(w, a), ValueText(w, b), x, y);
    } else {
      BareIsUncut(w, if a.Text? then b else a);
    }
  }

  // ----- Members -----

  predicate IsUnquoted(key: string) {
    forall i | 0 <= i < |key| :: key[i] != '"'
  }

  lemma UnquotedIsNoLonger(a: string, b: string, x: string, y: string)
    requires IsUnquoted(b) && a + "\"" + x == b + "\"" + y
    ensures |b| <= |a|
  {
    assert (a + "\"" + x)[|a|] == '"';
    assert forall i | 0 <= i < |b| :: (b + "\"" + y)[i] == b[i];
  }

  lemma KeyIsDecodable(a: string, b: string, x: string, y: string)
    requires IsUnquoted(a) && IsUnquoted(b) && a + "\"" + x == b + "\"" + y
    ensures a == b && x == y
  {
    UnquotedIsNoLonger(a, b, x, y);
    UnquotedIsNoLonger(b, a, y, x);
    EqualStarts(a + "\"", b + "\"", x, y);
    assert (a + "\"")[..|a|] == a && (b + "\"")[..|b|] == b;
  }

  lemma MemberParts(key: string, value: string, x: string)
    ensures Member(key, value) + x == "\"" + (key + "\"" + (":" + (value + x)))
  {
  }

  ghost predicate IsField(w: Wire, field: (string, Value)) {
    IsUnquoted(field.0) && IsTellable(w, field.1)
  }

  lemma MemberIsDecodable(w: Wire, a: (string, Value), b: (string, Value), x: string, y: string)
    requires TellsNumbersApart(w) && IsField(w, a) && IsField(w, b) && Ends(x) && Ends(y)
    requires Member(a.0, ValueText(w, a.1)) + x == Member(b.0, ValueText(w, b.1)) + y
    ensures a == b && x == y
  {
    var v, u := ValueText(w, a.1) + x, ValueText(w, b.1) + y;
    MemberParts(a.0, ValueText(w, a.1), x);
    MemberParts(b.0, ValueText(w, b.1), y);
    EqualStarts("\"", "\"", a.0 + "\"" + (":" + v), b.0 + "\"" + (":" + u));
    KeyIsDecodable(a.0, b.0, ":" + v, ":" + u);
    EqualStarts(":", ":", v, u);
    ValueIsDecodable(w, a.1, b.1, x, y);
  }

  // ----- Objects -----

  ghost predicate AreFields(w: Wire, fields: Fields) {
    forall i | 0 <= i < |fields| :: IsField(w, fields[i])
  }

  function MemberOf(w: Wire, field: (string, Value)): string {
    Member(field.0, ValueText(w, field.1))
  }

  // What comes behind a member, up to the end of the object.
  function Behind(w: Wire, fields: Fields): (r: string)
    ensures Ends(r)
  {
    if fields == [] then "}" else "," + (MemberOf(w, fields[0]) + Behind(w, fields[1..]))
  }

  lemma {:induction false} JoinedFromFront(members: seq<string>, x: string)
    requires |members| > 1
    ensures Joined(members) + x == members[0] + ("," + (Joined(members[1..]) + x))
    decreases |members|
  {
    var init, last := members[..|members| - 1], members[|members| - 1];
    if |members| == 2 {
      assert init == [members[0]] && members[1..] == [last];
    } else {
      JoinedFromFront(init, "," + last + x);
      assert init[1..] == members[1..][..|members| - 2];
      JoinedFromBack(members, x);
      JoinedFromBack(members[1..], x);
    }
  }

  lemma JoinedFromBack(members: seq<string>, x: string)
    requires |members| > 1
    ensures Joined(members) + x == Joined(members[..|members| - 1]) + ("," + members[|members| - 1] + x)
  {
  }

  lemma {:induction false} JoinedIsBehind(w: Wire, fields: Fields)
    requires fields != []
    ensures Joined(Members(w, fields)) + "}" == MemberOf(w, fields[0]) + Behind(w, fields[1..])
    decreases |fields|
  {
    var members := Members(w, fields);
    if |fields| == 1 {
      assert fields[1..] == [];
    } else {
      JoinedFromFront(members, "}");
      assert members[1..] == Members(w, fields[1..]);
      JoinedIsBehind(w, fields[1..]);
    }
  }

  lemma {:induction false} BehindIsDecodable(w: Wire, a: Fields, b: Fields)
    requires TellsNumbersApart(w) && AreFields(w, a) && AreFields(w, b) && Behind(w, a) == Behind(w, b)
    ensures a == b
    decreases |a|
  {
    if a != [] && b != [] {
      EqualStarts(",", ",", MemberOf(w, a[0]) + Behind(w, a[1..]), MemberOf(w, b[0]) + Behind(w, b[1..]));
      MemberIsDecodable(w, a[0], b[0], Behind(w, a[1..]), Behind(w, b[1..]));
      BehindIsDecodable(w, a[1..], b[1..]);
      assert a == [a[0]] + a[1..] && b == [b[0]] + b[1..];
    }
  }

  lemma ObjectFromFront(w: Wire, fields: Fields)
    requires fields != []
    ensures ObjectText(w, fields) == "{" + (MemberOf(w, fields[0]) + Behind(w, fields[1..]))
  {
    JoinedIsBehind(w, fields);
  }

  // Two objects that print alike are the same object: texts may hold quotes, commas, braces
  // and whole members, and still nothing is mistaken for something else.
  lemma ObjectsAreDecodable(w: Wire, a: Fields, b: Fields)
    requires TellsNumbersApart(w) && AreFields(w, a) && AreFields(w, b) && a != [] && b != []
    requires ObjectText(w, a) == ObjectText(w, b)
    ensures a == b
  {
    ObjectFromFront(w, a);
    ObjectFromFront(w, b);
    EqualStarts("{", "{", MemberOf(w, a[0]) + Behind(w, a[1..]), MemberOf(w, b[0]) + Behind(w, b[1..]));
    MemberIsDecodable(w, a[0], b[0], Behind(w, a[1..]), Behind(w, b[1..]));
    BehindIsDecodable(w, a[1..], b[1..]);
    assert a == [a[0]] + a[1..] && b == [b[0]] + b[1..];
  }

  lemma FieldsAreTellable(w: Wire, f: Frame)
    requires HasNumbers(w, f)
    ensures AreFields(w, FieldsOf(f))
  {
    forall i | 0 <= i < 9 ensures IsField(w, FieldsOf(f)[i]) {
      assert IsUnquoted(FieldsOf(f)[i].0);
    }
  }

  // Two frames that print alike are the same frame.
  lemma FramesAreDecodable(w: Wire, f: Frame, g: Frame)
    requires TellsNumbersApart(w) && HasNumbers(w, f) && HasNumbers(w, g) && Print(w, f) == Print(w, g)
    ensures f == g
  {
    FieldsAreTellable(w, f);
    FieldsAreTellable(w, g);
    ObjectsAreDecodable(w, FieldsOf(f), FieldsOf(g));
    var a, b := FieldsOf(f), FieldsOf(g);
    assert a[0] == b[0] && a[1] == b[1] && a[2] == b[2] && a[3] == b[3] && a[4] == b[4];
    assert a[5] == b[5] && a[6] == b[6] && a[7] == b[7] && a[8] == b[8];
  }

  // ----- A parser -----

  ghost predicate PrintsAs(w: Wire, fields: Fields, line: string) {
    fields != [] && Holds(w, fields) && ObjectText(w, fields) == line
  }

  ghost function ReadAs(w: Wire, line: string): Option<map<string, Value>> {
    if exists fields :: PrintsAs(w, fields, line) then
      var fields :| PrintsAs(w, fields, line); Some(Properties(fields))
    else None
  }

  lemma HeldAreFields(w: Wire, fields: Fields)
    requires Holds(w, fields)
    ensures AreFields(w, fields)
  {
  }

  lemma ReadAsPrinted(w: Wire, fields: Fields)
    requires TellsNumbersApart(w) && fields != [] && Holds(w, fields)
    ensures ReadAs(w, ObjectText(w, fields)) == Some(Properties(fields))
  {
    var line := ObjectText(w, fields);
    assert PrintsAs(w, fields, line);
    HeldAreFields(w, fields);
    forall other | PrintsAs(w, other, line) ensures other == fields {
      HeldAreFields(w, other);
      ObjectsAreDecodable(w, other, fields);
    }
  }

  lemma PrintIgnoresLoads(w: Wire, other: Wire, fields: Fields)
    requires other.numbers == w.numbers && other.number == w.number
    ensures ObjectText(other, fields) == ObjectText(w, fields) && (Holds(other, fields) <==> Holds(w, fields))
  {
    assert Members(other, fields) == Members(w, fields);
  }

  // So a parser that reads every object back exists, whatever way numbers print.
  lemma AReaderExists(w: Wire) returns (r: Wire)
    requires TellsNumbersApart(w)
    ensures r.numbers == w.numbers && r.number == w.number && ReadsBack(r)
  {
    r := w.(loads := line => ReadAs(w, line));
    forall fields | fields != [] && Holds(r, fields)
      ensures r.loads(ObjectText(r, fields)) == Some(Properties(fields))
    {
      PrintIgnoresLoads(w, r, fields);
      ReadAsPrinted(w, fields);
    }
  }

  // ----- One way of printing -----

  function Power10(k: nat): nat {
    if k == 0 then 1 else 10 * Power10(k - 1)
  }

  lemma {:induction false} DigitsAreFew(n: nat, k: nat)
    requires k > 0 && n < Power10(k)
    ensures |JsonText.Digits(n)| <= k
    decreases k
  {
    assert k == 1 ==> Power10(k) == 10 * Power10(0) == 10;
    if n >= 10 {
      DigitsAreFew(n / 10, k - 1);
    }
  }

  lemma SixteenDigits()
    ensures Power10(16) == 10_000_000_000_000_000
  {
    assert Power10(4) == 10_000;
    assert Power10(8) == 100_000_000;
    assert Power10(12) == 1_000_000_000_000;
  }

  predicate IsCount(n: real) {
    0.0 <= n <= MAX_METRIC && n == n.Floor as real
  }

  function CountText(n: real): string {
    if IsCount(n) then JsonText.Digits(n.Floor) else ""
  }

  const COUNTING := Wire(set i | 0 <= i <= MAX_METRIC.Floor :: i as real, n => CountText(n), _ => None)

  lemma CountsPrint(n: real)
    requires IsCount(n)
    ensures CountText(n) != "" && |CountText(n)| <= 16 && IsAscii(CountText(n)) && IsPlain(CountText(n))
  {
    SixteenDigits();
    DigitsAreFew(n.Floor, 16);
    assert CountText(n)[0] != 'n' && forall i | 0 <= i < |CountText(n)| :: '0' <= CountText(n)[i] <= '9';
  }

  lemma CountsAreToldApart(m: real, n: real)
    requires IsCount(m) && IsCount(n) && CountText(m) == CountText(n)
    ensures m == n
  {
    JsonText.DigitsReadBack(m.Floor);
    JsonText.DigitsReadBack(n.Floor);
  }

  lemma CountingTellsApart()
    ensures TellsNumbersApart(COUNTING)
  {
    forall n: real | n in COUNTING.numbers ensures IsPlain(COUNTING.number(n)) {
      CountsPrint(n);
    }
    forall m: real, n: real | m in COUNTING.numbers && n in COUNTING.numbers
        && COUNTING.number(m) == COUNTING.number(n) ensures m == n {
      CountsAreToldApart(m, n);
    }
  }

  // The premises are consistent: with whole numbers printed in decimal they all hold.
  lemma PremisesCanHold() returns (w: Wire)
    ensures PrintsShort(w) && ReadsBack(w)
    ensures forall n: real | IsCount(n) :: n in w.numbers
  {
    CountingTellsApart();
    w := AReaderExists(COUNTING);
    forall n: real | n in w.numbers && 0.0 <= n <= MAX_METRIC
      ensures 0 < |w.number(n)| <= MAX_NUMBER_WIDTH && IsAscii(w.number(n))
    {
      CountsPrint(n);
    }
  }
}
