/**
 The stand-ins a trace run carries in place of values.

 A string stands for its bytes, one character each.
 */
module TracerValues {
  import opened Text
  import opened Decimal
  import Attribution

  predicate Alphanumeric(c: char) {
    'a' <= c <= 'z' || 'A' <= c <= 'Z' || '0' <= c <= '9'
  }

  function Mask(c: char): char {
    if 'a' <= c <= 'z' then 'x' else if 'A' <= c <= 'Z' then 'X' else if '0' <= c <= '9' then '0' else c
  }

  function Masked(line: string): (r: string)
    ensures |r| == |line| && forall k :: 0 <= k < |line| ==> r[k] == Mask(line[k])
  {
    seq(|line|, k requires 0 <= k < |line| => Mask(line[k]))
  }

  function Head(id: nat): string {
    "zq" + Padded(id)
  }

  /** One line of a tracer. */
  function ShapedLine(line: string, head: string): (r: string)
    ensures |r| == |line|
  {
    if |line| >= |head| then head + Masked(line)[|head|..] else Masked(line)
  }

  function ShapedLines(lines: seq<string>, head: string): (r: seq<string>)
    ensures |r| == |lines| && forall k :: 0 <= k < |lines| ==> r[k] == ShapedLine(lines[k], head)
  {
    seq(|lines|, k requires 0 <= k < |lines| => ShapedLine(lines[k], head))
  }

  function Shaped(value: string, id: nat): string {
    Joined(ShapedLines(Lines(value), Head(id)))
  }

  /** Overwrites the bytes of one line in place. */
  method ShapeLine(b: array<char>, head: string)
    modifies b
    ensures b[..] == ShapedLine(old(b[..]), head)
  {
    for j := 0 to b.Length
      invariant forall k :: 0 <= k < j ==> b[k] == Mask(old(b[k]))
      invariant forall k :: j <= k < b.Length ==> b[k] == old(b[k])
    {
      var c := b[j];
      if 'a' <= c <= 'z' {
        b[j] := 'x';
      } else if 'A' <= c <= 'Z' {
        b[j] := 'X';
      } else if '0' <= c <= '9' {
        b[j] := '0';
      }
    }
    assert b[..] == Masked(old(b[..]));
    if b.Length >= |head| {
      for j := 0 to |head|
        invariant forall k :: 0 <= k < j ==> b[k] == head[k]
        invariant forall k :: j <= k < b.Length ==> b[k] == Mask(old(b[k]))
      {
        b[j] := head[j];
      }
    }
  }

  method ShapeTracer(value: string, id: nat) returns (r: string)
    ensures r == Shaped(value, id)
  {
    var head := "zq" + Padded(id);
    var lines := Lines(value);
    var shaped: seq<string> := [];
    for i := 0 to |lines|
      invariant |shaped| == i && forall k :: 0 <= k < i ==> shaped[k] == ShapedLine(lines[k], head)
    {
      var line := lines[i];
      var b := new char[|line|](k requires 0 <= k < |line| => line[k]);
      assert b[..] == line;
      ShapeLine(b, head);
      shaped := shaped + [b[..]];
    }
    assert shaped == ShapedLines(lines, head);
    r := Joined(shaped);
  }

  /* ---- the shape is kept ---- */

  lemma HeadIsPlain(id: nat)
    ensures |Head(id)| >= 5 && Head(id)[0] == 'z' && Head(id)[1] == 'q'
    ensures forall k :: 2 <= k < |Head(id)| ==> IsDigit(Head(id)[k])
    ensures id < 1000 ==> |Head(id)| == 5
  {
    DecValue(id);
    if id < 1000 {
      PaddedShort(id);
    }
  }

  lemma ShapedLineIsLine(line: string, id: nat)
    requires '\n' !in line
    ensures '\n' !in ShapedLine(line, Head(id))
  {
    HeadIsPlain(id);
    var r := ShapedLine(line, Head(id));
    forall k | 0 <= k < |r| ensures r[k] != '\n' {
      assert line[k] in line;
    }
  }

  /** Splitting what was joined gives the lines back. */
  lemma {:induction false} LinesJoined(lines: seq<string>)
    requires lines != [] && forall k :: 0 <= k < |lines| ==> '\n' !in lines[k]
    ensures Lines(Joined(lines)) == lines
    decreases |lines|, |lines[0]|
  {
    if lines[0] != "" {
      var shorter := [lines[0][1..]] + lines[1..];
      assert shorter[1..] == lines[1..];
      LinesJoined(shorter);
      assert Joined(lines)[1..] == Joined(shorter);
      assert lines[0][0] in lines[0];
      assert [lines[0][0]] + lines[0][1..] == lines[0];
    } else if |lines| > 1 {
      LinesJoined(lines[1..]);
      assert Joined(lines)[1..] == Joined(lines[1..]);
      assert [""] + lines[1..] == lines;
    }
  }

  lemma {:induction false} JoinedLength(a: seq<string>, b: seq<string>)
    requires |a| == |b| > 0 && forall k :: 0 <= k < |a| ==> |a[k]| == |b[k]|
    ensures |Joined(a)| == |Joined(b)|
    decreases |a|
  {
    if |a| > 1 {
      JoinedLength(a[1..], b[1..]);
    }
  }

  /**
   A tracer has the length and the lines of its value; a line of the head's length or more begins
   with the head; and beyond the head every byte that is no letter or digit is the value's own,
   and every letter and digit is replaced.
   */
  lemma ShapeKept(value: string, id: nat)
    ensures var r, head := Shaped(value, id), Head(id);
            && |r| == |value|
            && |Lines(r)| == |Lines(value)|
            && forall i :: 0 <= i < |Lines(value)| ==>
                 var line, shaped := Lines(value)[i], Lines(r)[i];
                 && |shaped| == |line|
                 && (|line| >= |head| ==> shaped[..|head|] == head)
                 && (forall k :: (if |line| >= |head| then |head| else 0) <= k < |line| ==>
                       && (!Alphanumeric(line[k]) ==> shaped[k] == line[k])
                       && (Alphanumeric(line[k]) ==> shaped[k] in {'x', 'X', '0'}))
  {
    var lines := Lines(value);
    var shaped := ShapedLines(lines, Head(id));
    JoinedLines(value);
    forall k | 0 <= k < |lines| ensures '\n' !in shaped[k] {
      ShapedLineIsLine(lines[k], id);
    }
    LinesJoined(shaped);
    JoinedLength(shaped, lines);
  }

  /* ---- a tracer names one occurrence ---- */

  /** In a tracer value a `z` begins a head. */
  lemma {:induction false} ZBeginsHead(lines: seq<string>, id: nat, p: nat)
    requires lines != [] && p < |Joined(ShapedLines(lines, Head(id)))|
    requires Joined(ShapedLines(lines, Head(id)))[p] == 'z'
    ensures OccursAt(Joined(ShapedLines(lines, Head(id))), Head(id), p)
    decreases |lines|
  {
    HeadIsPlain(id);
    var head := Head(id);
    var shaped := ShapedLines(lines, head);
    var first, before := shaped[0], shaped[0] + "\n";
    if |lines| == 1 || p < |before| {
      ZInFirst(lines, id, p);
    } else {
      var rest := Joined(ShapedLines(lines[1..], head));
      LaterLines(lines, head);
      ZBeginsHead(lines[1..], id, p - |before|);
      OccursAround(before, rest, "", head, p - |before|);
    }
  }

  lemma LaterLines(lines: seq<string>, head: string)
    requires |lines| > 1
    ensures Joined(ShapedLines(lines, head)) == (ShapedLines(lines, head)[0] + "\n") + Joined(ShapedLines(lines[1..], head)) + ""
  {
    assert ShapedLines(lines, head)[1..] == ShapedLines(lines[1..], head);
  }

  /** In the first line, and at its end, only the head begins with `z`. */
  lemma ZInFirst(lines: seq<string>, id: nat, p: nat)
    requires lines != [] && p < |Joined(ShapedLines(lines, Head(id)))| && (|lines| == 1 || p <= |lines[0]|)
    requires Joined(ShapedLines(lines, Head(id)))[p] == 'z'
    ensures OccursAt(Joined(ShapedLines(lines, Head(id))), Head(id), p)
  {
    HeadIsPlain(id);
    var shaped := ShapedLines(lines, Head(id));
    var first := shaped[0];
    assert Joined(shaped)[..|first|] == first;
    assert p < |first| ==> first[p] == 'z';
  }

  predicate HasLongLine(value: string) {
    exists i :: 0 <= i < |Lines(value)| && |Lines(value)[i]| >= 5
  }

  /** A tracer of a value with a long enough line holds its head. */
  lemma {:induction false} HoldsHead(lines: seq<string>, id: nat, i: nat) returns (p: nat)
    requires i < |lines| && |lines[i]| >= |Head(id)|
    ensures OccursAt(Joined(ShapedLines(lines, Head(id))), Head(id), p)
    decreases |lines|
  {
    var head := Head(id);
    var shaped := ShapedLines(lines, head);
    if i == 0 {
      p := 0;
      assert Joined(shaped)[..|shaped[0]|] == shaped[0];
    } else {
      var rest := ShapedLines(lines[1..], head);
      assert shaped[1..] == rest;
      var q := HoldsHead(lines[1..], id, i - 1);
      p := q + |shaped[0]| + 1;
      LaterLines(lines, head);
      OccursAround(shaped[0] + "\n", Joined(rest), "", head, q);
    }
  }

  /** No head begins in text that stands before a tracer, or after one. */
  predicate BeginsNoHead(pre: string, post: string) {
    !Contains(pre, "zq") && !Contains(post, "zq") && (pre != "" ==> pre[|pre| - 1] != 'z')
  }

  /** In text around a tracer a head can only be one of the tracer's own. */
  lemma HeadIsInside(pre: string, a: string, i: nat, post: string, head: string, p: nat)
    requires BeginsNoHead(pre, post) && |head| >= 2 && head[0] == 'z' && head[1] == 'q'
    requires OccursAt(pre + Shaped(a, i) + post, head, p)
    ensures |pre| <= p < |pre| + |Shaped(a, i)|
  {
    var whole := pre + Shaped(a, i) + post;
    assert whole[p] == head[0] && whole[p + 1] == head[1];
    if p < |pre| {
      assert whole[p] == pre[p];
      if p + 1 < |pre| {
        assert whole[p + 1] == pre[p + 1];
        assert OccursAt(pre, "zq", p);
      }
    } else if p >= |pre| + |Shaped(a, i)| {
      var q := p - |pre| - |Shaped(a, i)|;
      assert whole[p] == post[q] && whole[p + 1] == post[q + 1];
      assert OccursAt(post, "zq", q);
    }
  }

  /** A tracer's value in text that begins no head is contained by no tracer's of another id. */
  lemma NamesOneIdAround(pre: string, a: string, i: nat, post: string, b: string, j: nat)
    requires i < 1000 && j < 1000 && HasLongLine(b) && BeginsNoHead(pre, post)
    requires Contains(pre + Shaped(a, i) + post, Shaped(b, j))
    ensures i == j
  {
    HeadIsPlain(i);
    HeadIsPlain(j);
    var n :| 0 <= n < |Lines(b)| && |Lines(b)[n]| >= 5;
    var q := HoldsHead(Lines(b), j, n);
    var whole, middle := pre + Shaped(a, i) + post, Shaped(a, i);
    var p: nat :| p <= |whole| && OccursAt(whole, Shaped(b, j), p);
    OccursInside(whole, Shaped(b, j), p, Head(j), q);
    HeadIsInside(pre, a, i, post, Head(j), p + q);
    SameHead(pre, a, i, post, Head(j), p + q - |pre|);
    assert Padded(i) == Head(i)[2..] == Head(j)[2..] == Padded(j);
    PaddedInjective(i, j);
  }

  /** A head inside is the tracer's own. */
  lemma SameHead(pre: string, a: string, i: nat, post: string, head: string, at: nat)
    requires i < 1000 && |head| == |Head(i)| && head[0] == 'z' && at < |Shaped(a, i)| && OccursAt(pre + Shaped(a, i) + post, head, |pre| + at)
    ensures head == Head(i)
  {
    var whole, middle := pre + Shaped(a, i) + post, Shaped(a, i);
    assert middle[at] == whole[|pre| + at] == head[0];
    ZBeginsHead(Lines(a), i, at);
    OccursAround(pre, middle, post, Head(i), at);
    OccursSame(whole, head, Head(i), |pre| + at);
  }

  lemma NamesOneId(a: string, i: nat, b: string, j: nat)
    requires i < 1000 && j < 1000 && HasLongLine(b) && Contains(Shaped(a, i), Shaped(b, j))
    ensures i == j
  {
    assert "" + Shaped(a, i) + "" == Shaped(a, i);
    NamesOneIdAround("", a, i, "", b, j);
  }

  /** Among ids below `n`, one tracer's value contains another's only when they are the same. */
  ghost predicate Distinguished(n: nat) {
    forall i: nat, j: nat, a, b ::
      i < n && j < n && HasLongLine(b) && Contains(Shaped(a, i), Shaped(b, j)) ==> i == j
  }

  /** A tracer of id 1000 contains a tracer of id 100. */
  lemma ThousandContainsHundred()
    ensures HasLongLine("aaaaa") && Contains(Shaped("aaaaaa", 1000), Shaped("aaaaa", 100))
  {
    var a5, a6 := "aaaaa", "aaaaaa";
    PlainLine(a5);
    PlainLine(a6);
    assert Lines(a5)[0] == a5;
    assert Dec(10) == "10" && Dec(100) == "100" && Dec(1000) == "1000";
    assert Head(100) == "zq100" && Head(1000) == "zq1000";
    assert Shaped(a5, 100) == "zq100";
    assert Shaped(a6, 1000) == "zq1000";
    assert OccursAt("zq1000", "zq100", 0);
  }

  lemma {:induction false} PlainLine(s: string)
    requires '\n' !in s
    ensures Lines(s) == [s]
  {
    if s != "" {
      PlainLine(s[1..]);
      assert s[0] in s && [s[0]] + s[1..] == s;
    }
  }

  /** Tracers tell occurrences apart exactly as long as all ids are below 1000, the three digits of
      the head. */
  lemma DistinguishedIff(n: nat)
    ensures Distinguished(n) <==> n <= 1000
  {
    if n <= 1000 {
      forall i: nat, j: nat, a, b | i < n && j < n && HasLongLine(b) && Contains(Shaped(a, i), Shaped(b, j))
        ensures i == j
      {
        NamesOneId(a, i, b, j);
      }
    } else {
      ThousandContainsHundred();
    }
  }

  /** So a leaf that holds a string tracer's value, with text around it that begins no head, is
      attributed to that tracer and to no string tracer of another id. */
  lemma LeafCarriesItsOwnTracer(pre: string, a: string, i: nat, post: string, t: Attribution.Tracer, b: string, decode: Attribution.Decoder)
    requires i < 1000 && 0 <= t.id < 1000 && t.kind.Str? && t.value == Shaped(b, t.id) && HasLongLine(b) && BeginsNoHead(pre, post)
    ensures Attribution.Matches(t, pre + Shaped(a, i) + post, decode) ==> t.id == i
    ensures t.id == i && a == b ==> Attribution.Matches(t, pre + Shaped(a, i) + post, decode)
  {
    var leaf := pre + Shaped(a, i) + post;
    if Attribution.Matches(t, leaf, decode) {
      NamesOneIdAround(pre, a, i, post, b, t.id);
    }
    if t.id == i && a == b {
      assert OccursAt(leaf, t.value, |pre|);
    }
  }

  /** Text that ends in the beginning of a head gives a leaf that another tracer matches. */
  lemma TextCanHoldAHead(decode: Attribution.Decoder)
    ensures var b := "aaaaa";
            HasLongLine(b) && Attribution.Matches(Attribution.Tracer(7, Attribution.Str, Shaped(b, 7), ""), "zq007" + Shaped(b, 8), decode)
  {
    var b := "aaaaa";
    PlainLine(b);
    assert Lines(b)[0] == b;
    assert Dec(7) == "7";
    assert Head(7) == "zq007";
    assert Shaped(b, 7) == "zq007";
    assert OccursAt("zq007" + Shaped(b, 8), "zq007", 0);
  }

  /* ---- integers ---- */

  function IntTracer(id: nat): string {
    Dec(61000 + id)
  }

  /** An integer tracer matches its own leaf and no other integer tracer's. */
  lemma IntTracerNamesOneId(i: nat, j: nat, decode: Attribution.Decoder, raw: string)
    ensures Attribution.Matches(Attribution.Tracer(j, Attribution.Int, IntTracer(j), raw), IntTracer(i), decode) <==> i == j
  {
    if IntTracer(i) == IntTracer(j) {
      DecInjective(61000 + i, 61000 + j);
    }
  }
}
