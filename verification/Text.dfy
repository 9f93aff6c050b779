/** Text rules shared by the recorder: fingerprints, letter case, padding and ordinal order. */
module Text {

  predicate IsHexDigit(c: char) {
    '0' <= c <= '9' || 'a' <= c <= 'f' || 'A' <= c <= 'F'
  }

  predicate IsLowerHexDigit(c: char) {
    '0' <= c <= '9' || 'a' <= c <= 'f'
  }

  predicate IsHash(s: string) {
    |s| == 64 && forall i | 0 <= i < |s| :: IsHexDigit(s[i])
  }

  predicate IsLowerHex(s: string) {
    forall i | 0 <= i < |s| :: IsLowerHexDigit(s[i])
  }

  function LowerChar(c: char): char {
    if 'A' <= c <= 'Z' then (c as int + 32) as char else c
  }

  // ToLowerInvariant on the ASCII fingerprints the recorder applies it to.
  function Lower(s: string): (r: string)
    ensures |r| == |s|
    ensures forall i | 0 <= i < |s| :: r[i] == LowerChar(s[i])
  {
    seq(|s|, i requires 0 <= i < |s| => LowerChar(s[i]))
  }

  lemma LowerHash(s: string)
    requires IsHash(s)
    ensures IsHash(Lower(s)) && IsLowerHex(Lower(s))
  {
    forall i | 0 <= i < |s|
      ensures IsLowerHexDigit(Lower(s)[i]) && IsHexDigit(Lower(s)[i])
    {
      assert IsHexDigit(s[i]);
    }
  }

  lemma LowerFixesLowerHex(s: string)
    requires IsLowerHex(s)
    ensures Lower(s) == s
  {
    forall i | 0 <= i < |s|
      ensures Lower(s)[i] == s[i]
    {
      assert IsLowerHexDigit(s[i]);
    }
  }

  // char.IsWhiteSpace
  predicate IsWhite(c: char) {
    var u := c as int;
    || 9 <= u <= 13 || u == 0x20 || u == 0x85 || u == 0xA0 || u == 0x1680
    || 0x2000 <= u <= 0x200A || u == 0x2028 || u == 0x2029 || u == 0x202F || u == 0x205F || u == 0x3000
  }

  predicate IsBlank(s: string) {
    forall i | 0 <= i < |s| :: IsWhite(s[i])
  }

  function TrimStart(s: string): string {
    if s != "" && IsWhite(s[0]) then TrimStart(s[1..]) else s
  }

  function TrimEnd(s: string): string {
    if s != "" && IsWhite(s[|s| - 1]) then TrimEnd(s[..|s| - 1]) else s
  }

  function Trim(s: string): string {
    TrimEnd(TrimStart(s))
  }

  // Trimming removes only padding: what is left is a stretch of the text, and a
  // text with something to read keeps it.
  lemma {:induction false} TrimStartIsSuffix(s: string)
    ensures |TrimStart(s)| <= |s|
    ensures TrimStart(s) == s[|s| - |TrimStart(s)|..]
    ensures !IsBlank(s) ==> !IsBlank(TrimStart(s))
  {
    if s != "" && IsWhite(s[0]) {
      TrimStartIsSuffix(s[1..]);
      if !IsBlank(s) {
        var i :| 0 <= i < |s| && !IsWhite(s[i]);
        assert !IsWhite(s[1..][i - 1]);
      }
    }
  }

  lemma {:induction false} TrimEndIsPrefix(s: string)
    ensures |TrimEnd(s)| <= |s|
    ensures TrimEnd(s) == s[..|TrimEnd(s)|]
    ensures !IsBlank(s) ==> !IsBlank(TrimEnd(s))
  {
    if s != "" && IsWhite(s[|s| - 1]) {
      var t := s[..|s| - 1];
      TrimEndIsPrefix(t);
      if !IsBlank(s) {
        var i :| 0 <= i < |s| && !IsWhite(s[i]);
        assert !IsWhite(t[i]);
      }
    }
  }

  lemma TrimIsInfix(s: string)
    ensures exists lo, hi | 0 <= lo <= hi <= |s| :: Trim(s) == s[lo..hi]
    ensures !IsBlank(s) ==> !IsBlank(Trim(s))
  {
    TrimStartIsSuffix(s);
    var t := TrimStart(s);
    TrimEndIsPrefix(t);
    var lo := |s| - |t|;
    var hi := lo + |Trim(s)|;
    assert Trim(s) == s[lo..hi];
  }

  // Padding a text on either side does not change what is left after trimming.
  lemma {:induction false} TrimIgnoresPadding(left: string, s: string, right: string)
    requires IsBlank(left) && IsBlank(right)
    ensures Trim(left + s + right) == Trim(s)
    decreases |left| + |right|
  {
    if left != "" {
      var rest := left[1..];
      assert IsWhite(left[0]);
      assert (left + s + right)[1..] == rest + s + right;
      assert TrimStart(left + s + right) == TrimStart(rest + s + right);
      TrimIgnoresPadding(rest, s, right);
    } else if right != "" {
      assert left + s + right == s + right;
      TrimStartOfPadded(s, right);
      var init := right[..|right| - 1];
      TrimIgnoresPadding(left, s, init);
      assert left + s + init == s + init;
      TrimStartOfPadded(s, init);
      TrimEndIgnoresPadding(TrimStart(s), right);
    } else {
      assert left + s + right == s;
    }
  }

  lemma {:induction false} TrimStartOfPadded(s: string, right: string)
    requires IsBlank(right)
    ensures TrimStart(s + right) == if IsBlank(s) then "" else TrimStart(s) + right
    ensures IsBlank(s) ==> TrimStart(s) == ""
  {
    if s != "" {
      assert (s + right)[1..] == s[1..] + right;
      if IsWhite(s[0]) {
        TrimStartOfPadded(s[1..], right);
        assert IsBlank(s) <==> IsBlank(s[1..]) by {
          if IsBlank(s[1..]) {
            forall i | 0 <= i < |s| ensures IsWhite(s[i]) {
              if i > 0 { assert IsWhite(s[1..][i - 1]); }
            }
          }
          if IsBlank(s) {
            forall i | 0 <= i < |s[1..]| ensures IsWhite(s[1..][i]) {
              assert IsWhite(s[i + 1]);
            }
          }
        }
      }
    } else if right != "" {
      assert s + right == right;
      assert IsWhite(right[0]);
      TrimStartOfPadded("", right[1..]);
      assert "" + right[1..] == right[1..];
    }
  }

  lemma {:induction false} TrimEndIgnoresPadding(s: string, right: string)
    requires IsBlank(right)
    ensures TrimEnd(s + right) == TrimEnd(s)
  {
    if right == "" {
      assert s + right == s;
    } else {
      assert IsWhite(right[|right| - 1]);
      assert (s + right)[..|s + right| - 1] == s + right[..|right| - 1];
      TrimEndIgnoresPadding(s, right[..|right| - 1]);
    }
  }

  // StringComparer.Ordinal
  predicate Before(a: string, b: string) {
    b != "" && (a == "" || a[0] < b[0] || (a[0] == b[0] && Before(a[1..], b[1..])))
  }

  lemma {:induction false} BeforeIsTotal(a: string, b: string)
    ensures a == b || Before(a, b) || Before(b, a)
    ensures !(Before(a, b) && Before(b, a))
    ensures !Before(a, a)
  {
    if a != "" {
      BeforeIsTotal(a[1..], a[1..]);
      if b != "" {
        BeforeIsTotal(a[1..], b[1..]);
        if a[0] == b[0] && a[1..] == b[1..] {
          assert a == [a[0]] + a[1..] == b;
        }
      }
    }
  }

  // Ordinal order: the first difference decides, and a text comes before its continuations.
  ghost predicate DifferAt(a: string, b: string, i: int) {
    0 <= i <= |a| && i < |b| && a[..i] == b[..i] && (i == |a| || a[i] < b[i])
  }

  lemma EqualPrefixes(a: string, b: string, i: nat)
    requires 0 < i <= |a| && i <= |b| && a[..i] == b[..i]
    ensures a[0] == b[0]
  {
    assert a[..i][0] == a[0] && b[..i][0] == b[0];
  }

  lemma {:induction false} BeforeIsOrdinal(a: string, b: string)
    ensures Before(a, b) <==> exists i :: DifferAt(a, b, i)
  {
    if a != "" && b != "" && a[0] == b[0] {
      BeforeIsOrdinal(a[1..], b[1..]);
      if i :| DifferAt(a[1..], b[1..], i) {
        assert a[..i + 1] == [a[0]] + a[1..][..i] && b[..i + 1] == [b[0]] + b[1..][..i];
        assert DifferAt(a, b, i + 1);
      }
      if i :| DifferAt(a, b, i) {
        assert i > 0;
        assert a[1..][..i - 1] == a[..i][1..] && b[1..][..i - 1] == b[..i][1..];
        assert DifferAt(a[1..], b[1..], i - 1);
      }
    } else if Before(a, b) {
      assert DifferAt(a, b, 0);
    } else {
      forall i | DifferAt(a, b, i) ensures i == 0 {
        if i > 0 { EqualPrefixes(a, b, i); }
      }
    }
  }

  lemma {:induction false} BeforeIsTransitive(a: string, b: string, c: string)
    requires Before(a, b) && Before(b, c)
    ensures Before(a, c)
  {
    if a != "" && a[0] == b[0] == c[0] {
      BeforeIsTransitive(a[1..], b[1..], c[1..]);
    }
  }
}
