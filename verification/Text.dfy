/** Substrings. */
module Text {

  predicate OccursAt(s: string, part: string, i: nat) {
    i + |part| <= |s| && forall k :: 0 <= k < |part| ==> part[k] == s[i + k]
  }

  predicate Contains(s: string, part: string) {
    exists i: nat :: i <= |s| && OccursAt(s, part, i)
  }

  /** What occurs in a part occurs in the whole. */
  lemma OccursInside(s: string, part: string, i: nat, inner: string, k: nat)
    requires OccursAt(s, part, i) && OccursAt(part, inner, k)
    ensures OccursAt(s, inner, i + k)
  {
    forall j | 0 <= j < |inner| ensures inner[j] == s[i + k + j] {
      assert inner[j] == part[k + j] == s[i + (k + j)];
    }
  }

  /** What occurs in the middle occurs in the whole, and the other way round. */
  lemma OccursAround(pre: string, s: string, post: string, part: string, k: nat)
    ensures OccursAt(s, part, k) ==> OccursAt(pre + s + post, part, |pre| + k)
    ensures OccursAt(pre + s + post, part, |pre| + k) && k + |part| <= |s| ==> OccursAt(s, part, k)
  {
    var whole := pre + s + post;
    assert forall j :: 0 <= j < |s| ==> whole[|pre| + j] == s[j];
    if OccursAt(whole, part, |pre| + k) && k + |part| <= |s| {
      forall j | 0 <= j < |part| ensures part[j] == s[k + j] {
        assert part[j] == whole[(|pre| + k) + j] == whole[|pre| + (k + j)];
      }
    }
    if OccursAt(s, part, k) {
      forall j | 0 <= j < |part| ensures part[j] == whole[|pre| + k + j] {
        assert part[j] == s[k + j] == whole[|pre| + (k + j)];
      }
    }
  }

  lemma OccursSame(s: string, a: string, b: string, i: nat)
    requires OccursAt(s, a, i) && OccursAt(s, b, i) && |a| == |b|
    ensures a == b
  {
    forall k | 0 <= k < |a| ensures a[k] == b[k] {
      assert a[k] == s[i + k] == b[k];
    }
  }

  /** The first place at or after `from` where `part` occurs, or -1. */
  function Index(s: string, part: string, from: nat): (i: int)
    requires from <= |s|
    ensures i == -1 || (from <= i && OccursAt(s, part, i))
    ensures forall k: nat :: from <= k <= |s| && (i == -1 || k < i) ==> !OccursAt(s, part, k)
    decreases |s| - from
  {
    if OccursAt(s, part, from) then from
    else if from == |s| then -1
    else Index(s, part, from + 1)
  }

  predicate IsDigit(c: char) {
    '0' <= c <= '9'
  }

  /** The pieces of `s` between newlines. */
  function Lines(s: string): (lines: seq<string>)
    ensures lines != []
  {
    if s == [] then [[]]
    else
      var rest := Lines(s[1..]);
      if s[0] == '\n' then [[]] + rest else [[s[0]] + rest[0]] + rest[1..]
  }

  /** Lines joined by newlines. */
  function Joined(lines: seq<string>): string
    requires lines != []
  {
    if |lines| == 1 then lines[0] else lines[0] + "\n" + Joined(lines[1..])
  }

  lemma {:induction false} JoinedLines(s: string)
    ensures Joined(Lines(s)) == s
    ensures forall k :: 0 <= k < |Lines(s)| ==> '\n' !in Lines(s)[k]
  {
    if s != [] {
      JoinedLines(s[1..]);
      var rest := Lines(s[1..]);
      if s[0] == '\n' {
        assert ([[]] + rest)[1..] == rest;
      } else {
        assert ([[s[0]] + rest[0]] + rest[1..])[1..] == rest[1..];
      }
    }
  }

  lemma Associative<T>(a: seq<T>, b: seq<T>, c: seq<T>)
    ensures a + (b + c) == (a + b) + c
  {
  }
}
