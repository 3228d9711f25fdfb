/** The JavaScript string primitives the application relies on: `trim`, `split`,
    `join`, `toLowerCase`, `includes`, `startsWith`, `substring` and decimal
    rendering of a number. */
module Strings {

  /** The ECMAScript WhiteSpace and LineTerminator code points: what the
      regular-expression class `\s` matches and what `trim` removes. */
  predicate IsWhitespace(c: char) {
    || c == '\t' || c == '\n' || c == '\U{B}' || c == '\U{C}' || c == '\r' || c == ' '
    || c == '\U{A0}' || c == '\U{1680}' || ('\U{2000}' <= c <= '\U{200A}')
    || c == '\U{2028}' || c == '\U{2029}' || c == '\U{202F}' || c == '\U{205F}'
    || c == '\U{3000}' || c == '\U{FEFF}'
  }

  /** The ECMAScript LineTerminator code points: where `^` matches under the `m` flag. */
  predicate IsLineTerminator(c: char) {
    c == '\n' || c == '\r' || c == '\U{2028}' || c == '\U{2029}'
  }

  /** The regular-expression class `\w`. */
  predicate IsWordChar(c: char) {
    ('a' <= c <= 'z') || ('A' <= c <= 'Z') || ('0' <= c <= '9') || c == '_'
  }

  predicate AllWhitespace(s: string) {
    forall i :: 0 <= i < |s| ==> IsWhitespace(s[i])
  }

  predicate NoWhitespace(s: string) {
    forall i :: 0 <= i < |s| ==> !IsWhitespace(s[i])
  }

  /** `s.startsWith(p)`. */
  predicate IsPrefix(p: string, s: string) {
    |p| <= |s| && s[..|p|] == p
  }

  /** `s.includes(n)`: n occurs in h at some position (the empty string occurs everywhere). */
  predicate Contains(h: string, n: string) {
    exists i :: 0 <= i <= |h| && OccursAt(h, n, i)
  }

  /** n occurs in h starting at position i. */
  predicate OccursAt(h: string, n: string, i: nat)
    requires i <= |h|
  {
    IsPrefix(n, h[i..])
  }

  /** A string that starts with p starts with p's first character. */
  lemma PrefixFirstChar(p: string, s: string)
    requires IsPrefix(p, s) && p != ""
    ensures s != "" && s[0] == p[0]
  {
    assert s[..|p|][0] == s[0];
  }

  /** A needle that starts with c occurs only in a haystack that contains c. */
  lemma ContainsFirstChar(h: string, n: string)
    requires Contains(h, n) && n != ""
    ensures n[0] in h
  {
    var i :| 0 <= i <= |h| && OccursAt(h, n, i);
    PrefixFirstChar(n, h[i..]);
    assert h[i] == n[0];
  }

  lemma ContainsEmpty(h: string)
    ensures Contains(h, "")
  {
    assert OccursAt(h, "", 0);
  }

  /** Removes leading whitespace. */
  function TrimStart(s: string): (r: string)
    ensures |r| <= |s| && r == s[|s| - |r|..]
    ensures AllWhitespace(s[..|s| - |r|])
    ensures r != [] ==> !IsWhitespace(r[0])
  {
    if s != [] && IsWhitespace(s[0]) then
      var r := TrimStart(s[1..]);
      LeadingWhitespaceStep(s, r);
      r
    else s
  }

  /** One more leading whitespace character before a trimmed suffix of the rest. */
  lemma LeadingWhitespaceStep(s: string, r: string)
    requires s != [] && IsWhitespace(s[0])
    requires |r| <= |s| - 1 && r == s[1..][|s| - 1 - |r|..]
    requires AllWhitespace(s[1..][..|s| - 1 - |r|])
    ensures r == s[|s| - |r|..]
    ensures AllWhitespace(s[..|s| - |r|])
  {
    var n := |s| - 1 - |r|;
    assert s[1..][n..] == s[n + 1..];
    var p := s[..n + 1];
    forall i | 0 <= i < |p|
      ensures IsWhitespace(p[i])
    {
      if i > 0 {
        assert p[i] == s[1..][..n][i - 1];
      }
    }
  }

  /** Removes trailing whitespace. */
  function TrimEnd(s: string): (r: string)
    ensures |r| <= |s| && r == s[..|r|]
    ensures AllWhitespace(s[|r|..])
    ensures r != [] ==> !IsWhitespace(r[|r| - 1])
  {
    if s != [] && IsWhitespace(s[|s| - 1]) then
      var r := TrimEnd(s[..|s| - 1]);
      assert s[|r|..] == s[..|s| - 1][|r|..] + [s[|s| - 1]];
      r
    else s
  }

  /** `s.trim()`: s without its leading and trailing whitespace. The result is
      empty exactly when s is all whitespace, and otherwise neither starts nor
      ends with whitespace. */
  function Trim(s: string): (r: string)
    ensures |r| <= |s|
    ensures r == "" <==> AllWhitespace(s)
    ensures r != "" ==> !IsWhitespace(r[0]) && !IsWhitespace(r[|r| - 1])
    ensures s != "" && !IsWhitespace(s[0]) ==> r != "" && r[0] == s[0]
  {
    TrimEmptyIff(s);
    TrimEnds(s);
    TrimEnd(TrimStart(s))
  }

  /** Trimming leaves nothing exactly when the string is all whitespace. */
  lemma TrimEmptyIff(s: string)
    ensures TrimEnd(TrimStart(s)) == "" <==> AllWhitespace(s)
  {
    var t := TrimStart(s);
    var r := TrimEnd(t);
    var n := |s| - |t|;
    if r == "" {
      assert t[0..] == t;
      assert t == "";
      forall i | 0 <= i < |s| ensures IsWhitespace(s[i]) {
        assert s[..n][i] == s[i];
      }
    } else {
      assert t[0] == s[n];
    }
  }

  /** The trimmed string neither starts nor ends with whitespace, and keeps a
      non-whitespace first character. */
  lemma TrimEnds(s: string)
    ensures var r := TrimEnd(TrimStart(s));
      r != "" ==> !IsWhitespace(r[0]) && !IsWhitespace(r[|r| - 1])
    ensures s != "" && !IsWhitespace(s[0]) ==> TrimStart(s) == s
  {
    var t := TrimStart(s);
    var r := TrimEnd(t);
    if r != "" {
      assert r[0] == t[..|r|][0];
    }
  }

  /** When the first non-whitespace character of s is at k, `trimStart` drops
      exactly the k characters before it. */
  lemma {:induction false} TrimStartAt(s: string, k: nat)
    requires k < |s| && AllWhitespace(s[..k]) && !IsWhitespace(s[k])
    ensures TrimStart(s) == s[k..]
  {
    if k > 0 {
      assert s[..k][0] == s[0];
      var u := s[1..][..k - 1];
      forall i | 0 <= i < |u| ensures IsWhitespace(u[i]) {
        assert u[i] == s[..k][i + 1];
      }
      TrimStartAt(s[1..], k - 1);
      assert s[1..][k - 1..] == s[k..];
    }
  }

  /** When the first non-whitespace character of s is at k, the trimmed string starts with it. */
  lemma TrimFirst(s: string, k: nat)
    requires k < |s| && AllWhitespace(s[..k]) && !IsWhitespace(s[k])
    ensures Trim(s) != "" && Trim(s)[0] == s[k]
  {
    TrimStartAt(s, k);
    var t := s[k..];
    var r := TrimEnd(t);
    assert t[0] == s[k];
  }

  /** Every character of the trimmed string comes from s. */
  lemma TrimFromInside(s: string, c: char)
    requires c in Trim(s)
    ensures c in s
  {
    var t := TrimStart(s);
    var r := TrimEnd(t);
    var i :| 0 <= i < |r| && r[i] == c;
    assert r[i] == t[i] == s[|s| - |t| + i];
  }

  /** Trimming a string twice is trimming it once. */
  lemma TrimIdempotent(s: string)
    ensures Trim(Trim(s)) == Trim(s)
  {
    var r := Trim(s);
    if r != "" {
      assert TrimStart(r) == r;
      assert TrimEnd(r) == r;
    }
  }

  /** ASCII case folding of one character (the model's approximation of `toLowerCase`). */
  function LowerChar(c: char): char {
    if 'A' <= c <= 'Z' then (c as int + 32) as char else c
  }

  /** `s.toLowerCase()`, approximated by ASCII case folding: same length, each
      character folded, nothing else changed. */
  function ToLower(s: string): (r: string)
    ensures |r| == |s|
    ensures forall i :: 0 <= i < |s| ==> r[i] == LowerChar(s[i])
  {
    if s == [] then [] else [LowerChar(s[0])] + ToLower(s[1..])
  }

  /** Folding case twice is folding it once. */
  lemma ToLowerIdempotent(s: string)
    ensures ToLower(ToLower(s)) == ToLower(s)
  {
  }

  /** The index of the first occurrence of c in s. */
  function IndexOf(s: string, c: char): (i: nat)
    requires c in s
    ensures i < |s| && s[i] == c && c !in s[..i]
  {
    if s[0] == c then 0
    else
      var i := IndexOf(s[1..], c);
      assert s[..i + 1] == [s[0]] + s[1..][..i];
      i + 1
  }

  /** `pieces.join(sep)`. */
  function Join(pieces: seq<string>, sep: string): string {
    if |pieces| == 0 then ""
    else if |pieces| == 1 then pieces[0]
    else pieces[0] + sep + Join(pieces[1..], sep)
  }

  /** Where piece k starts in `pieces.join(sep)`: after each earlier piece and its separator. */
  function JoinOffset(pieces: seq<string>, sep: string, k: nat): nat
    requires k <= |pieces|
  {
    if k == 0 then 0 else |pieces[0]| + |sep| + JoinOffset(pieces[1..], sep, k - 1)
  }

  /** Each piece sits at its offset in the joined string. */
  lemma {:induction false} JoinPieceAt(pieces: seq<string>, sep: string, k: nat)
    requires k < |pieces|
    ensures var o := JoinOffset(pieces, sep, k);
      o + |pieces[k]| <= |Join(pieces, sep)| && Join(pieces, sep)[o..o + |pieces[k]|] == pieces[k]
  {
    if |pieces| == 1 {
      assert Join(pieces, sep) == pieces[0];
    } else {
      var rest := Join(pieces[1..], sep);
      var head := pieces[0] + sep;
      assert Join(pieces, sep) == head + rest;
      if k == 0 {
        assert (head + rest)[..|pieces[0]|] == pieces[0];
      } else {
        var o := JoinOffset(pieces[1..], sep, k - 1);
        assert JoinOffset(pieces, sep, k) == |head| + o;
        JoinPieceAt(pieces[1..], sep, k - 1);
        assert pieces[1..][k - 1] == pieces[k];
        SliceAfter(head, rest, o, |pieces[k]|);
      }
    }
  }

  /** Each piece occurs in the joined string at its offset. */
  lemma JoinPieceOccurs(pieces: seq<string>, sep: string, k: nat)
    requires k < |pieces|
    ensures JoinOffset(pieces, sep, k) <= |Join(pieces, sep)|
    ensures OccursAt(Join(pieces, sep), pieces[k], JoinOffset(pieces, sep, k))
  {
    JoinPieceAt(pieces, sep, k);
    SliceOccurs(Join(pieces, sep), pieces[k], JoinOffset(pieces, sep, k));
  }

  /** A slice equal to n is an occurrence of n. */
  lemma SliceOccurs(h: string, n: string, o: nat)
    requires o + |n| <= |h| && h[o..o + |n|] == n
    ensures OccursAt(h, n, o)
  {
    assert h[o..][..|n|] == h[o..o + |n|];
  }

  /** Every piece but the last is followed by the separator. */
  lemma {:induction false} JoinSeparatorAfter(pieces: seq<string>, sep: string, k: nat)
    requires k + 1 < |pieces|
    ensures var o := JoinOffset(pieces, sep, k) + |pieces[k]|;
      o + |sep| <= |Join(pieces, sep)| && Join(pieces, sep)[o..o + |sep|] == sep
  {
    if k == 0 {
      JoinFirstSeparator(pieces, sep);
    } else {
      JoinSeparatorAfter(pieces[1..], sep, k - 1);
      JoinSeparatorShift(pieces, sep, k);
    }
  }

  /** The first piece is followed by the separator. */
  lemma JoinFirstSeparator(pieces: seq<string>, sep: string)
    requires 1 < |pieces|
    ensures |pieces[0]| + |sep| <= |Join(pieces, sep)| && Join(pieces, sep)[|pieces[0]|..|pieces[0]| + |sep|] == sep
  {
    var head := pieces[0] + sep;
    assert Join(pieces, sep) == head + Join(pieces[1..], sep);
    assert (head + Join(pieces[1..], sep))[|pieces[0]|..|head|] == sep;
  }

  /** The separator after piece k - 1 of the tail is the separator after piece k of the whole. */
  lemma JoinSeparatorShift(pieces: seq<string>, sep: string, k: nat)
    requires 0 < k && k + 1 < |pieces|
    requires var m := JoinOffset(pieces[1..], sep, k - 1) + |pieces[1..][k - 1]|;
      m + |sep| <= |Join(pieces[1..], sep)| && Join(pieces[1..], sep)[m..m + |sep|] == sep
    ensures var o := JoinOffset(pieces, sep, k) + |pieces[k]|;
      o + |sep| <= |Join(pieces, sep)| && Join(pieces, sep)[o..o + |sep|] == sep
  {
    var rest := Join(pieces[1..], sep);
    var head := pieces[0] + sep;
    assert Join(pieces, sep) == head + rest;
    var m := JoinOffset(pieces[1..], sep, k - 1) + |pieces[1..][k - 1]|;
    assert pieces[1..][k - 1] == pieces[k];
    assert JoinOffset(pieces, sep, k) + |pieces[k]| == |head| + m;
    SliceAfter(head, rest, m, |sep|);
  }

  /** A slice of the second part of a concatenation, located in the whole. */
  lemma SliceAfter(x: string, y: string, o: nat, n: nat)
    requires o + n <= |y|
    ensures (x + y)[|x| + o..|x| + o + n] == y[o..o + n]
  {
  }

  /** Consecutive pieces start one piece and one separator apart. */
  lemma {:induction false} JoinOffsetStep(pieces: seq<string>, sep: string, k: nat)
    requires k < |pieces|
    ensures JoinOffset(pieces, sep, k + 1) == JoinOffset(pieces, sep, k) + |pieces[k]| + |sep|
  {
    if k > 0 {
      JoinOffsetStep(pieces[1..], sep, k - 1);
      assert pieces[1..][k - 1] == pieces[k];
    }
  }

  /** A string occurs in any string built around it. */
  lemma ContainsMiddle(a: string, b: string, c: string)
    ensures Contains(a + b + c, b)
  {
    assert (a + b + c)[|a|..][..|b|] == b;
    assert OccursAt(a + b + c, b, |a|);
  }

  /** The second, fourth and sixth of seven concatenated strings occur in the whole. */
  lemma ContainsAlternate(a: string, b: string, c: string, d: string, e: string, f: string, g: string)
    ensures Contains(a + b + c + d + e + f + g, b)
    ensures Contains(a + b + c + d + e + f + g, d)
    ensures Contains(a + b + c + d + e + f + g, f)
  {
    var w := a + b + c + d + e + f + g;
    assert w == a + b + (c + d + e + f + g);
    ContainsMiddle(a, b, c + d + e + f + g);
    assert w == a + b + c + d + (e + f + g);
    ContainsMiddle(a + b + c, d, e + f + g);
    ContainsMiddle(a + b + c + d + e, f, g);
  }

  /** `s.split(sep)` for a one-character separator: at least one piece, no piece
      holds the separator, and joining the pieces with the separator gives s back. */
  function Split(s: string, sep: char): (r: seq<string>)
    ensures |r| >= 1
    ensures forall k :: 0 <= k < |r| ==> sep !in r[k]
    ensures Join(r, [sep]) == s
    decreases |s|
  {
    if sep !in s then [s]
    else
      var i := IndexOf(s, sep);
      var rest := Split(s[i + 1..], sep);
      var r := [s[..i]] + rest;
      assert r[1..] == rest;
      assert s == s[..i] + [sep] + s[i + 1..];
      r
  }

  /** Splitting undoes joining, when no piece holds the separator. */
  lemma {:induction false} SplitJoin(pieces: seq<string>, sep: char)
    requires |pieces| >= 1
    requires forall k :: 0 <= k < |pieces| ==> sep !in pieces[k]
    ensures Split(Join(pieces, [sep]), sep) == pieces
  {
    var s := Join(pieces, [sep]);
    if |pieces| == 1 {
      assert s == pieces[0];
    } else {
      var tail := Join(pieces[1..], [sep]);
      assert s == pieces[0] + [sep] + tail;
      assert s[|pieces[0]|] == sep;
      var i := IndexOf(s, sep);
      assert i == |pieces[0]| by {
        forall j | 0 <= j < i ensures s[j] != sep {
          assert s[..i][j] == s[j];
        }
        forall j | 0 <= j < |pieces[0]| ensures s[j] != sep {
          assert s[j] == pieces[0][j] && pieces[0][j] in pieces[0];
        }
      }
      assert s[..i] == pieces[0];
      assert s[i + 1..] == tail;
      SplitJoin(pieces[1..], sep);
      assert Split(s, sep) == [pieces[0]] + pieces[1..];
    }
  }

  /** The first piece of `s.split(sep)` is the longest prefix of s free of sep. */
  lemma {:induction false} SplitFirst(s: string, sep: char)
    ensures IsPrefix(Split(s, sep)[0], s)
    ensures |Split(s, sep)[0]| < |s| ==> s[|Split(s, sep)[0]|] == sep
  {
    if sep in s {
      var i := IndexOf(s, sep);
      assert Split(s, sep)[0] == s[..i];
    }
  }

  function DigitChar(d: nat): char
    requires d < 10
  {
    "0123456789"[d]
  }

  function DigitValue(c: char): nat {
    if '0' <= c <= '9' then c as int - '0' as int else 0
  }

  lemma DigitRoundTrip(d: nat)
    requires d < 10
    ensures DigitValue(DigitChar(d)) == d
  {
  }

  /** `String(n)` for a non-negative integer: its decimal digits. */
  function NatToString(n: nat): (r: string)
    ensures |r| >= 1
    ensures forall i :: 0 <= i < |r| ==> '0' <= r[i] <= '9'
    ensures r[0] == '0' <==> n == 0
    ensures r[0] == '0' ==> |r| == 1
  {
    if n < 10 then [DigitChar(n)] else NatToString(n / 10) + [DigitChar(n % 10)]
  }

  /** A canonical decimal numeral: one or more digits, with no leading zero
      unless the numeral is "0" itself. */
  predicate IsDecimal(d: string) {
    |d| >= 1 && (forall i :: 0 <= i < |d| ==> '0' <= d[i] <= '9') && (d[0] == '0' ==> |d| == 1)
  }

  /** The value of a string of decimal digits. */
  function ParseNat(s: string): nat {
    if s == [] then 0 else ParseNat(s[..|s| - 1]) * 10 + DigitValue(s[|s| - 1])
  }

  /** Reading back the decimal rendering of n gives n. */
  lemma {:induction false} ParseNatToString(n: nat)
    ensures ParseNat(NatToString(n)) == n
  {
    if n >= 10 {
      var s := NatToString(n / 10) + [DigitChar(n % 10)];
      assert s[..|s| - 1] == NatToString(n / 10);
      assert DigitValue(s[|s| - 1]) == n % 10 by { DigitRoundTrip(n % 10); }
      ParseNatToString(n / 10);
      assert ParseNat(s) == (n / 10) * 10 + n % 10;
    }
  }

  /** A canonical numeral is the rendering of its own value: `String(n)` is the
      only canonical numeral of n. */
  lemma {:induction false} DecimalIsRendering(d: string)
    requires IsDecimal(d)
    ensures NatToString(ParseNat(d)) == d
  {
    var c := d[|d| - 1];
    var p := d[..|d| - 1];
    assert ParseNat(d) == ParseNat(p) * 10 + DigitValue(c);
    if |d| == 1 {
      assert p == [];
      DigitCharValue(c);
    } else {
      assert p[0] == d[0];
      DecimalIsRendering(p);
      if ParseNat(p) == 0 {
        ParseNatZero(p);
      }
      var n := ParseNat(d);
      assert n / 10 == ParseNat(p) && n % 10 == DigitValue(c);
      DigitCharValue(c);
      assert d == p + [c];
    }
  }

  /** Digits whose value is zero start with '0'. */
  lemma {:induction false} ParseNatZero(p: string)
    requires |p| >= 1 && forall i :: 0 <= i < |p| ==> '0' <= p[i] <= '9'
    requires ParseNat(p) == 0
    ensures p[0] == '0'
  {
    var q := p[..|p| - 1];
    assert ParseNat(p) == ParseNat(q) * 10 + DigitValue(p[|p| - 1]);
    if |p| > 1 {
      assert q[0] == p[0];
      ParseNatZero(q);
    }
  }

  /** The digit character of a digit's value is that digit. */
  lemma DigitCharValue(c: char)
    requires '0' <= c <= '9'
    ensures DigitValue(c) < 10 && DigitChar(DigitValue(c)) == c
  {
    var k := c as int - '0' as int;
    assert "0123456789"[k] as int == '0' as int + k by {
      if k == 0 {} else if k == 1 {} else if k == 2 {} else if k == 3 {} else if k == 4 {}
      else if k == 5 {} else if k == 6 {} else if k == 7 {} else if k == 8 {} else {}
    }
  }
}
