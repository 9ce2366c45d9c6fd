/** Character and string helpers shared by the SMTP engine and the e-mail builder.
    Bytes are read as characters one to one, and "white space" is the ASCII white
    space that .NET's `String.Trim` removes (tab, LF, VT, FF, CR and space). */
module Ascii {

  newtype byte = x: int | 0 <= x < 256

  const LF: byte := 0x0a
  const CR: byte := 0x0d

  predicate IsWhiteSpace(c: char) {
    c == ' ' || 9 <= c as int <= 13
  }

  predicate AllWhiteSpace(s: string) {
    forall i :: 0 <= i < |s| ==> IsWhiteSpace(s[i])
  }

  /** Number of leading white-space characters of `s`. */
  function LeadingWhiteSpace(s: string): (k: nat)
    ensures k <= |s|
    ensures AllWhiteSpace(s[..k])
    ensures k == |s| || !IsWhiteSpace(s[k])
    decreases |s|
  {
    if s == [] || !IsWhiteSpace(s[0]) then 0
    else
      var k := 1 + LeadingWhiteSpace(s[1..]);
      assert s[..k] == [s[0]] + s[1..][..k - 1];
      k
  }

  /** Length of `s` once its trailing white space is cut off. */
  function WithoutTrailingWhiteSpace(s: string): (k: nat)
    ensures k <= |s|
    ensures AllWhiteSpace(s[k..])
    ensures k == 0 || !IsWhiteSpace(s[k - 1])
    decreases |s|
  {
    if s == [] || !IsWhiteSpace(s[|s| - 1]) then |s|
    else
      var k := WithoutTrailingWhiteSpace(s[..|s| - 1]);
      assert s[k..] == s[..|s| - 1][k..] + [s[|s| - 1]];
      k
  }

  /** `String.Trim()`: `s` without its leading and trailing white space. */
  function Trim(s: string): (r: string)
    ensures r == [] || (!IsWhiteSpace(r[0]) && !IsWhiteSpace(r[|r| - 1]))
    ensures exists i, j :: 0 <= i <= j <= |s| && r == s[i..j]
                           && AllWhiteSpace(s[..i]) && AllWhiteSpace(s[j..])
  {
    var i := LeadingWhiteSpace(s);
    var t := s[i..];
    var j := WithoutTrailingWhiteSpace(t);
    assert t[..j] == s[i..i + j];
    assert t[j..] == s[i + j..];
    t[..j]
  }

  predicate IsTrimmed(s: string) {
    s == [] || (!IsWhiteSpace(s[0]) && !IsWhiteSpace(s[|s| - 1]))
  }

  /** A string without white space at either end is its own trim. */
  lemma TrimOfTrimmed(s: string)
    requires IsTrimmed(s)
    ensures Trim(s) == s
  {
    assert LeadingWhiteSpace(s) == 0;
    assert s[0..] == s;
    assert WithoutTrailingWhiteSpace(s) == |s|;
  }

  lemma TrimIdempotent(s: string)
    ensures Trim(Trim(s)) == Trim(s)
  {
    TrimOfTrimmed(Trim(s));
  }

  /** `Trim(s) == ""` exactly when `s` consists of white space only. */
  lemma TrimEmptyIffAllWhiteSpace(s: string)
    ensures Trim(s) == [] <==> AllWhiteSpace(s)
  {
    var i := LeadingWhiteSpace(s);
    if AllWhiteSpace(s) {
      assert i == |s|;
    }
    if Trim(s) == [] {
      var t := s[i..];
      assert WithoutTrailingWhiteSpace(t) == 0;
      assert AllWhiteSpace(t);
      assert i == |s|;
      assert s[..i] == s;
    }
  }

  lemma {:induction false} WithoutTrailingAppend(t: string, w: string)
    requires AllWhiteSpace(w)
    ensures WithoutTrailingWhiteSpace(t + w) == WithoutTrailingWhiteSpace(t)
    decreases |w|
  {
    if w != [] {
      var tw := t + w;
      assert tw[|tw| - 1] == w[|w| - 1];
      assert tw[..|tw| - 1] == t + w[..|w| - 1];
      WithoutTrailingAppend(t, w[..|w| - 1]);
    } else {
      assert t + w == t;
    }
  }

  /** White space appended to a line (its CR LF, say) does not change its trim. */
  lemma TrimAppendWhiteSpace(s: string, w: string)
    requires AllWhiteSpace(w)
    ensures Trim(s + w) == Trim(s)
  {
    var i := LeadingWhiteSpace(s);
    if i == |s| {
      assert AllWhiteSpace(s + w);
      TrimEmptyIffAllWhiteSpace(s + w);
      TrimEmptyIffAllWhiteSpace(s);
    } else {
      var sw := s + w;
      assert forall k :: 0 <= k <= i ==> sw[k] == s[k];
      assert sw[..i] == s[..i];
      assert LeadingWhiteSpace(sw) == i by {
        LeadingWhiteSpaceUnique(sw, i);
      }
      assert sw[i..] == s[i..] + w;
      WithoutTrailingAppend(s[i..], w);
      var j := WithoutTrailingWhiteSpace(s[i..]);
      assert (s[i..] + w)[..j] == s[i..][..j];
    }
  }

  lemma LeadingWhiteSpaceUnique(s: string, i: nat)
    requires i < |s| && AllWhiteSpace(s[..i]) && !IsWhiteSpace(s[i])
    ensures LeadingWhiteSpace(s) == i
  {
    var k := LeadingWhiteSpace(s);
    assert forall m :: 0 <= m < i ==> s[..i][m] == s[m];
    assert forall m :: 0 <= m < k ==> s[..k][m] == s[m];
  }

  /** `String.IsNullOrEmpty`-style blank test used by the setters: empty or only white space. */
  predicate IsBlank(s: string) {
    Trim(s) == []
  }

  function UpperChar(c: char): char {
    if 'a' <= c <= 'z' then (c as int - 32) as char else c
  }

  /** `String.ToUpper()` restricted to the ASCII letters. */
  function Upper(s: string): (r: string)
    ensures |r| == |s|
    ensures forall i :: 0 <= i < |s| ==> r[i] == UpperChar(s[i])
  {
    seq(|s|, i requires 0 <= i < |s| => UpperChar(s[i]))
  }

  /** The characters `String.Split(new Char[2] { ' ', ':' }, ...)` splits on. */
  predicate IsSeparator(c: char) {
    c == ' ' || c == ':'
  }

  predicate NoSeparator(s: string) {
    forall i :: 0 <= i < |s| ==> !IsSeparator(s[i])
  }

  /** Length of the longest separator-free prefix of `s`. */
  function TokenLength(s: string): (k: nat)
    ensures k <= |s|
    ensures NoSeparator(s[..k])
    ensures k == |s| || IsSeparator(s[k])
    decreases |s|
  {
    if s == [] || IsSeparator(s[0]) then 0
    else
      var k := 1 + TokenLength(s[1..]);
      assert s[..k] == [s[0]] + s[1..][..k - 1];
      k
  }

  /** `s.Split({' ', ':'}, StringSplitOptions.RemoveEmptyEntries)`: the maximal
      separator-free runs of `s`, in order. */
  function Tokens(s: string): (r: seq<string>)
    ensures forall k :: 0 <= k < |r| ==> r[k] != [] && NoSeparator(r[k])
    decreases |s|
  {
    if s == [] then []
    else if IsSeparator(s[0]) then Tokens(s[1..])
    else
      var k := TokenLength(s);
      [s[..k]] + Tokens(s[k..])
  }

  /** The tokens joined with single spaces, the inverse of `Tokens` on clean tokens. */
  function JoinWithSpaces(ts: seq<string>): string {
    if ts == [] then []
    else if |ts| == 1 then ts[0]
    else ts[0] + " " + JoinWithSpaces(ts[1..])
  }

  lemma TokensOfToken(t: string, rest: string)
    requires t != [] && NoSeparator(t)
    requires rest == [] || IsSeparator(rest[0])
    ensures Tokens(t + rest) == [t] + Tokens(rest)
  {
    var s := t + rest;
    assert s[..|t|] == t;
    assert s[|t|..] == rest;
    assert forall i :: 0 <= i < |t| ==> s[i] == t[i];
    assert TokenLength(s) == |t|;
  }

  /** A leading separator contributes no token. */
  lemma TokensSkipSeparator(c: char, rest: string)
    requires IsSeparator(c)
    ensures Tokens([c] + rest) == Tokens(rest)
  {
    assert ([c] + rest)[1..] == rest;
  }

  /** Three tokens, each followed by one separator but the last, split back into
      exactly those three. */
  lemma TokensOfThree(a: string, x: char, b: string, y: char, c: string)
    requires a != [] && NoSeparator(a) && b != [] && NoSeparator(b) && c != [] && NoSeparator(c)
    requires IsSeparator(x) && IsSeparator(y)
    ensures Tokens(a + ([x] + (b + ([y] + c)))) == [a, b, c]
  {
    var s3 := [y] + c;
    var s2 := b + s3;
    var s1 := [x] + s2;
    assert Tokens(c) == [c] by { TokensOfToken(c, []); assert c + [] == c; }
    assert Tokens(s3) == [c] by { TokensSkipSeparator(y, c); }
    assert Tokens(s2) == [b, c] by { TokensOfToken(b, s3); }
    assert Tokens(s1) == [b, c] by { TokensSkipSeparator(x, s2); }
    TokensOfToken(a, s1);
  }

  /** Splitting undoes joining: a sequence of non-empty, separator-free tokens
      survives `JoinWithSpaces` followed by `Tokens`. */
  lemma {:induction false} TokensOfJoin(ts: seq<string>)
    requires forall k :: 0 <= k < |ts| ==> ts[k] != [] && NoSeparator(ts[k])
    ensures Tokens(JoinWithSpaces(ts)) == ts
  {
    if ts == [] {
    } else if |ts| == 1 {
      TokensOfToken(ts[0], []);
      assert ts[0] + [] == ts[0];
    } else {
      var tail := JoinWithSpaces(ts[1..]);
      TokensOfJoin(ts[1..]);
      assert Tokens(" " + tail) == Tokens(tail);
      assert ts[0] + " " + tail == ts[0] + (" " + tail);
      TokensOfToken(ts[0], " " + tail);
      assert [ts[0]] + ts[1..] == ts;
    }
  }

  function ToChar(b: byte): char {
    (b as int) as char
  }

  /** `Encoding.GetString` with each byte read as one character. */
  function Decode(bs: seq<byte>): (s: string)
    ensures |s| == |bs|
    ensures forall i :: 0 <= i < |bs| ==> s[i] as int == bs[i] as int
  {
    seq(|bs|, i requires 0 <= i < |bs| => ToChar(bs[i]))
  }

  predicate IsByteString(s: string) {
    forall i :: 0 <= i < |s| ==> s[i] as int < 256
  }

  /** The bytes a client sends for a string of byte-sized characters. */
  function Encode(s: string): (bs: seq<byte>)
    requires IsByteString(s)
    ensures |bs| == |s|
    ensures forall i :: 0 <= i < |s| ==> bs[i] as int == s[i] as int
  {
    seq(|s|, i requires 0 <= i < |s| => s[i] as int as byte)
  }

  lemma DecodeEncode(s: string)
    requires IsByteString(s)
    ensures Decode(Encode(s)) == s
  {
  }
}
