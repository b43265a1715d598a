/**
 UTF-8 as Go reads it: characters stand for bytes, and a byte that begins no encoded character is read
 alone.
 */
module Runes {

  predicate Continues(c: char) {
    0x80 <= c as int <= 0xBF
  }

  /** The second byte after the lead byte `b` of three or four. */
  predicate Second(b: int, c: char) {
    && (if b == 0xE0 then 0xA0 else if b == 0xF0 then 0x90 else 0x80) <= c as int
    && c as int <= (if b == 0xED then 0x9F else if b == 0xF4 then 0x8F else 0xBF)
  }

  /** How many bytes the character at the front takes, or 0 when none is encoded there. */
  function RuneLength(s: string): (n: nat)
    ensures n <= |s|
  {
    if s == "" then 0
    else
      var b := s[0] as int;
      if b < 0x80 then 1
      else if 0xC2 <= b <= 0xDF then if |s| >= 2 && Continues(s[1]) then 2 else 0
      else if 0xE0 <= b <= 0xEF then if |s| >= 3 && Second(b, s[1]) && Continues(s[2]) then 3 else 0
      else if 0xF0 <= b <= 0xF4 then if |s| >= 4 && Second(b, s[1]) && Continues(s[2]) && Continues(s[3]) then 4 else 0
      else 0
  }

  /** An encoded character, or a byte that is none. */
  datatype Rune = Good(bytes: string) | Bad(byte: char)

  type Runes = seq<Rune>

  function EncodeOne(r: Rune): string {
    if r.Good? then r.bytes else [r.byte]
  }

  function Encode(rs: Runes): string {
    if rs == [] then "" else EncodeOne(rs[0]) + Encode(rs[1..])
  }

  function Decode(s: string): Runes {
    if s == "" then []
    else if RuneLength(s) == 0 then [Bad(s[0])] + Decode(s[1..])
    else [Good(s[..RuneLength(s)])] + Decode(s[RuneLength(s)..])
  }

  lemma {:induction false} DecodedThenEncoded(s: string)
    ensures Encode(Decode(s)) == s
  {
    if s != "" {
      var n := if RuneLength(s) == 0 then 1 else RuneLength(s);
      DecodedThenEncoded(s[n..]);
      assert Decode(s)[1..] == Decode(s[n..]);
      assert s == s[..n] + s[n..];
    }
  }

  lemma {:induction false} EncodedSum(a: Runes, b: Runes)
    ensures Encode(a + b) == Encode(a) + Encode(b)
  {
    if a == [] {
      assert a + b == b;
    } else {
      EncodedSum(a[1..], b);
      assert (a + b)[1..] == a[1..] + b;
    }
  }

  predicate AllGood(rs: Runes) {
    forall k :: 0 <= k < |rs| ==> rs[k].Good?
  }

  /** The text is valid UTF-8. */
  predicate IsUtf8(s: string) {
    AllGood(Decode(s))
  }

  /** No character begins in `a` and ends in `b`. */
  predicate Cut(a: string, b: string) {
    IsUtf8(a) || b == "" || !Continues(b[0])
  }

  lemma LengthOfSum(a: string, b: string)
    requires a != "" && (RuneLength(a) > 0 || b == "" || !Continues(b[0]))
    ensures RuneLength(a + b) == RuneLength(a)
  {
    if b == "" {
      assert a + b == a;
    }
  }

  /** How many bytes are read first. */
  function FirstLength(s: string): (n: nat)
    requires s != ""
    ensures 0 < n <= |s|
  {
    if RuneLength(s) == 0 then 1 else RuneLength(s)
  }

  lemma Utf8Rest(s: string)
    requires s != "" && IsUtf8(s)
    ensures RuneLength(s) > 0 && IsUtf8(s[RuneLength(s)..])
  {
    assert Decode(s)[0].Good?;
    var n := RuneLength(s);
    assert Decode(s)[1..] == Decode(s[n..]);
    assert forall k :: 0 <= k < |Decode(s[n..])| ==> Decode(s[n..])[k] == Decode(s)[k + 1];
  }

  lemma CutRest(a: string, b: string)
    requires a != "" && Cut(a, b)
    ensures RuneLength(a + b) == RuneLength(a) && Cut(a[FirstLength(a)..], b)
  {
    if IsUtf8(a) {
      Utf8Rest(a);
    }
    LengthOfSum(a, b);
  }

  lemma {:induction false} DecodedSum(a: string, b: string)
    requires Cut(a, b)
    ensures Decode(a + b) == Decode(a) + Decode(b)
    decreases |a|
  {
    if a == "" {
      assert a + b == b;
    } else {
      CutRest(a, b);
      var n := FirstLength(a);
      DecodedSum(a[n..], b);
      SlicesOfSum(a, b, n);
    }
  }

  lemma SlicesOfSum(a: string, b: string, n: nat)
    requires n <= |a|
    ensures (a + b)[..n] == a[..n] && (a + b)[n..] == a[n..] + b
  {
  }

  /** A text of encoded characters, or none, begins with no continuation byte. */
  lemma Utf8Begins(s: string)
    requires IsUtf8(s)
    ensures s == "" || !Continues(s[0])
  {
    assert s != "" ==> Decode(s)[0].Good?;
  }

  const NEVER := 0xFF as char

  /** A rune that stands for itself among any others: an encoded character, or the byte that is part of
      none. */
  predicate Alone(r: Rune) {
    if r.Good? then r.bytes != "" && RuneLength(r.bytes) == |r.bytes| else r.byte == NEVER
  }

  lemma {:induction false} EncodedThenDecoded(rs: Runes)
    requires forall k :: 0 <= k < |rs| ==> Alone(rs[k])
    ensures Decode(Encode(rs)) == rs
  {
    if rs != [] {
      var first, rest := EncodeOne(rs[0]), Encode(rs[1..]);
      EncodedThenDecoded(rs[1..]);
      if rs[0].Good? {
        LengthOfSum(first, rest);
      }
      assert (first + rest)[..|first|] == first && (first + rest)[|first|..] == rest;
      assert rs == [rs[0]] + rs[1..];
    }
  }

  lemma {:induction false} GoodIsAlone(s: string)
    requires IsUtf8(s)
    ensures forall k :: 0 <= k < |Decode(s)| ==> Alone(Decode(s)[k])
  {
    if s != "" {
      Utf8Rest(s);
      var n := RuneLength(s);
      GoodIsAlone(s[n..]);
    }
  }
}
