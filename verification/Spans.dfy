/**
 Where a message of the trace run quotes a tracer.

 Positions count characters.  The scanning loops are methods, proved against the functions that
 the lemmas below speak about.
 */
module Spans {
  import opened Wrappers
  import opened Text
  import opened Attribution

  datatype Span = Span(start: nat, end: nat, id: int)

  const MIN_QUOTE := 5

  /** An integer tracer is a number, so its text is never empty. */
  predicate Usable(tracers: seq<Tracer>) {
    forall k :: 0 <= k < |tracers| && tracers[k].kind.Int? ==> tracers[k].value != ""
  }

  /* ---- whole occurrences ---- */

  function ExactFrom(msg: string, v: string, id: int, from: nat): seq<Span>
    requires from <= |msg|
    decreases |msg| - from
  {
    if v == "" || Index(msg, v, from) < 0 then []
    else
      var s := Index(msg, v, from);
      [Span(s, s + |v|, id)] + ExactFrom(msg, v, id, s + |v|)
  }

  method Exact(msg: string, v: string, id: int) returns (out: seq<Span>)
    ensures out == ExactFrom(msg, v, id, 0)
  {
    out := [];
    var i := 0;
    while v != ""
      invariant i <= |msg| && out + ExactFrom(msg, v, id, i) == ExactFrom(msg, v, id, 0)
      decreases |msg| - i
    {
      var j := Index(msg, v, i);
      if j < 0 {
        break;
      }
      Associative(out, [Span(j, j + |v|, id)], ExactFrom(msg, v, id, j + |v|));
      out := out + [Span(j, j + |v|, id)];
      i := j + |v|;
    }
  }

  predicate NoDigitBeside(msg: string, s: nat, e: nat) {
    && s <= |msg|
    && (s == 0 || !IsDigit(msg[s - 1]))
    && (e >= |msg| || !IsDigit(msg[e]))
  }

  function IntFrom(msg: string, v: string, id: int, from: nat): seq<Span>
    requires v != "" && from <= |msg|
    decreases |msg| - from
  {
    var s := Index(msg, v, from);
    if s < 0 then []
    else (if NoDigitBeside(msg, s, s + |v|) then [Span(s, s + |v|, id)] else []) + IntFrom(msg, v, id, s + |v|)
  }

  method IntQuotes(msg: string, v: string, id: int) returns (out: seq<Span>)
    requires v != ""
    ensures out == IntFrom(msg, v, id, 0)
  {
    out := [];
    var i := 0;
    while true
      invariant i <= |msg| && out + IntFrom(msg, v, id, i) == IntFrom(msg, v, id, 0)
      decreases |msg| - i
    {
      var s := Index(msg, v, i);
      if s < 0 {
        break;
      }
      var e := s + |v|;
      Associative(out, if NoDigitBeside(msg, s, e) then [Span(s, e, id)] else [], IntFrom(msg, v, id, e));
      if (s == 0 || !IsDigit(msg[s - 1])) && (e == |msg| || !IsDigit(msg[e])) {
        out := out + [Span(s, e, id)];
      }
      i := e;
    }
  }

  /* ---- quotes of a prefix ---- */

  /** `n` is the length of the longest common prefix of `a` and `b`. */
  predicate LongestCommon(a: string, b: string, n: nat) {
    && n <= |a| && n <= |b| && (forall i :: 0 <= i < n ==> a[i] == b[i])
    && (n < |a| && n < |b| ==> a[n] != b[n])
  }

  function Common(a: string, b: string): nat {
    if a == "" || b == "" || a[0] != b[0] then 0
    else
      1 + Common(a[1..], b[1..])
  }

  lemma {:induction false} CommonIsLongest(a: string, b: string)
    ensures LongestCommon(a, b, Common(a, b))
  {
    if a != "" && b != "" && a[0] == b[0] {
      CommonIsLongest(a[1..], b[1..]);
    }
  }

  method CommonPrefix(a: string, b: string) returns (n: nat)
    ensures n == Common(a, b)
  {
    n := 0;
    while n < |a| && n < |b| && a[n] == b[n]
      invariant n <= |a| && n <= |b| && (forall i :: 0 <= i < n ==> a[i] == b[i])
    {
      n := n + 1;
    }
    CommonIsLongest(a, b);
  }

  /** The longest prefix of a candidate that `s` begins with. */
  function Best(s: string, candidates: seq<string>): nat {
    if candidates == [] then 0
    else
      var last := |candidates| - 1;
      var before := Best(s, candidates[..last]);
      var here := Common(s, candidates[last]);
      if here > before then here else before
  }

  /** It is a prefix of one of them, and no candidate shares more with `s`. */
  lemma {:induction false} BestIsBest(s: string, candidates: seq<string>)
    ensures Best(s, candidates) <= |s|
    ensures forall k :: 0 <= k < |candidates| ==> Common(s, candidates[k]) <= Best(s, candidates)
    ensures Best(s, candidates) == 0 || exists k :: 0 <= k < |candidates| && Common(s, candidates[k]) == Best(s, candidates)
  {
    if candidates != [] {
      var last := |candidates| - 1;
      BestIsBest(s, candidates[..last]);
      CommonIsLongest(s, candidates[last]);
      if Best(s, candidates[..last]) != 0 {
        var k :| 0 <= k < last && Common(s, candidates[..last][k]) == Best(s, candidates[..last]);
        assert Common(s, candidates[k]) == Best(s, candidates[..last]);
      }
    }
  }

  /** The whole tracer and each of its lines. */
  function Candidates(v: string): seq<string> {
    [v] + Lines(v)
  }

  function Head(v: string): string {
    if |v| > MIN_QUOTE then v[..MIN_QUOTE] else v
  }

  /** The first candidate begins with a head that is long enough. */
  predicate Headed(head: string, candidates: seq<string>) {
    |head| >= MIN_QUOTE && candidates != [] && OccursAt(candidates[0], head, 0)
  }

  lemma BestIsLong(msg: string, head: string, candidates: seq<string>, s: nat)
    requires Headed(head, candidates) && OccursAt(msg, head, s)
    ensures |head| <= Best(msg[s..], candidates) <= |msg| - s
  {
    forall i | 0 <= i < |head| ensures msg[s..][i] == candidates[0][i] {
      assert msg[s..][i] == head[i];
    }
    CommonIsLongest(msg[s..], candidates[0]);
    BestIsBest(msg[s..], candidates);
  }

  /** How much of one of the candidates the message quotes at `s`. */
  function Quoted(msg: string, head: string, candidates: seq<string>, s: nat): (n: nat)
    requires Headed(head, candidates) && OccursAt(msg, head, s)
    ensures |head| <= n <= |msg| - s
  {
    BestIsLong(msg, head, candidates, s);
    Best(msg[s..], candidates)
  }

  method LongestQuote(msg: string, head: string, candidates: seq<string>, s: nat) returns (best: nat)
    requires Headed(head, candidates) && OccursAt(msg, head, s)
    ensures best == Quoted(msg, head, candidates, s)
  {
    best := 0;
    for k := 0 to |candidates|
      invariant best == Best(msg[s..], candidates[..k])
    {
      assert candidates[..k + 1][..k] == candidates[..k];
      var n := CommonPrefix(msg[s..], candidates[k]);
      if n > best {
        best := n;
      }
    }
    assert candidates[..|candidates|] == candidates;
  }

  function QuotesFrom(msg: string, head: string, candidates: seq<string>, id: int, from: nat): seq<Span>
    requires Headed(head, candidates) && from <= |msg|
    decreases |msg| - from
  {
    var s := Index(msg, head, from);
    if s < 0 then []
    else
      var e := s + Quoted(msg, head, candidates, s);
      [Span(s, e, id)] + QuotesFrom(msg, head, candidates, id, e)
  }

  /** The next quote at or after `i`. */
  method NextQuote(msg: string, head: string, candidates: seq<string>, id: int, i: nat) returns (s: Option<Span>)
    requires Headed(head, candidates) && i <= |msg|
    ensures s.None? ==> QuotesFrom(msg, head, candidates, id, i) == []
    ensures s.Some? ==> i < s.value.end <= |msg|
                        && QuotesFrom(msg, head, candidates, id, i) == [s.value] + QuotesFrom(msg, head, candidates, id, s.value.end)
  {
    var start := Index(msg, head, i);
    if start < 0 {
      return None;
    }
    var best := LongestQuote(msg, head, candidates, start);
    return Some(Span(start, start + best, id));
  }

  method QuotesLoop(msg: string, head: string, candidates: seq<string>, id: int) returns (out: seq<Span>)
    requires Headed(head, candidates)
    ensures out == QuotesFrom(msg, head, candidates, id, 0)
  {
    ghost var total := QuotesFrom(msg, head, candidates, id, 0);
    out := [];
    var i := 0;
    while true
      invariant i <= |msg| && out + QuotesFrom(msg, head, candidates, id, i) == total
      decreases |msg| - i
    {
      var s := NextQuote(msg, head, candidates, id, i);
      if s.None? {
        break;
      }
      Associative(out, [s.value], QuotesFrom(msg, head, candidates, id, s.value.end));
      out := out + [s.value];
      i := s.value.end;
    }
  }

  /** The quotes of a tracer; one shorter than the shortest quote has none. */
  function QuotesOf(msg: string, v: string, id: int): seq<Span> {
    if |v| < MIN_QUOTE then [] else QuotesFrom(msg, Head(v), Candidates(v), id, 0)
  }

  method Quotes(msg: string, v: string, id: int) returns (out: seq<Span>)
    ensures out == QuotesOf(msg, v, id)
  {
    var candidates := [v] + Lines(v);
    var head := v;
    if |head| > MIN_QUOTE {
      head := head[..MIN_QUOTE];
    }
    out := [];
    if |head| >= MIN_QUOTE {
      out := QuotesLoop(msg, head, candidates, id);
    }
  }

  /* ---- all spans, sorted and made disjoint ---- */

  function FoundBy(msg: string, t: Tracer): seq<Span>
    requires t.kind.Int? ==> t.value != ""
  {
    match t.kind
    case Int => IntFrom(msg, t.value, t.id, 0)
    case Str => QuotesOf(msg, t.value, t.id)
    case Bytes => ExactFrom(msg, t.value, t.id, 0) + QuotesOf(msg, t.raw, t.id)
    case Bool => []
  }

  function Found(msg: string, tracers: seq<Tracer>): seq<Span>
    requires Usable(tracers)
  {
    if tracers == [] then []
    else
      var n := |tracers| - 1;
      Found(msg, tracers[..n]) + FoundBy(msg, tracers[n])
  }

  /** The order of the spans: by start, and the longer first. */
  predicate Before(a: Span, b: Span) {
    a.start < b.start || (a.start == b.start && a.end >= b.end)
  }

  predicate Sorted(spans: seq<Span>) {
    forall i, k :: 0 <= i < k < |spans| ==> Before(spans[i], spans[k])
  }

  function Insert(s: Span, sorted: seq<Span>): seq<Span> {
    if sorted == [] then [s]
    else
      var n := |sorted| - 1;
      if Before(sorted[n], s) then sorted + [s] else Insert(s, sorted[..n]) + [sorted[n]]
  }

  function Sort(spans: seq<Span>): seq<Span> {
    if spans == [] then []
    else
      var n := |spans| - 1;
      Insert(spans[n], Sort(spans[..n]))
  }

  lemma {:induction false} InsertAdds(s: Span, sorted: seq<Span>)
    ensures multiset(Insert(s, sorted)) == multiset(sorted) + multiset{s}
  {
    if sorted != [] {
      var n := |sorted| - 1;
      InsertAdds(s, sorted[..n]);
      LastApart(sorted);
    }
  }

  lemma {:induction false} InsertSorted(s: Span, sorted: seq<Span>)
    requires Sorted(sorted)
    ensures Sorted(Insert(s, sorted))
  {
    if sorted != [] {
      var n := |sorted| - 1;
      if Before(sorted[n], s) {
        SortedAppend(sorted, s);
      } else {
        InsertSorted(s, sorted[..n]);
        InsertAdds(s, sorted[..n]);
        var r := Insert(s, sorted[..n]);
        forall k | 0 <= k < |r| ensures Before(r[k], sorted[n]) {
          assert r[k] in multiset(r);
        }
        SortedAppend(r, sorted[n]);
      }
    }
  }

  lemma SortedAppend(sorted: seq<Span>, s: Span)
    requires Sorted(sorted) && forall k :: 0 <= k < |sorted| ==> Before(sorted[k], s)
    ensures Sorted(sorted + [s])
  {
  }

  /** Sorting orders the spans and keeps them all. */
  lemma {:induction false} SortIsSorted(spans: seq<Span>)
    ensures Sorted(Sort(spans)) && multiset(Sort(spans)) == multiset(spans)
  {
    if spans != [] {
      var n := |spans| - 1;
      SortIsSorted(spans[..n]);
      var sorted := Sort(spans[..n]);
      InsertSorted(spans[n], sorted);
      InsertAdds(spans[n], sorted);
      LastApart(spans);
    }
  }

  lemma LastApart(spans: seq<Span>)
    requires spans != []
    ensures multiset(spans) == multiset(spans[..|spans| - 1]) + multiset{spans[|spans| - 1]}
  {
    assert spans == spans[..|spans| - 1] + [spans[|spans| - 1]];
  }

  /** Drops every span that begins inside the last one kept. */
  function Disjoint(sorted: seq<Span>): seq<Span> {
    if sorted == [] then []
    else
      var n := |sorted| - 1;
      var out := Disjoint(sorted[..n]);
      if out != [] && sorted[n].start < out[|out| - 1].end then out else out + [sorted[n]]
  }

  function SpansOf(msg: string, tracers: seq<Tracer>): seq<Span>
    requires Usable(tracers)
  {
    Disjoint(Sort(Found(msg, tracers)))
  }

  method FindBy(msg: string, t: Tracer) returns (found: seq<Span>)
    requires t.kind.Int? ==> t.value != ""
    ensures found == FoundBy(msg, t)
  {
    match t.kind {
      case Int => found := IntQuotes(msg, t.value, t.id);
      case Str => found := Quotes(msg, t.value, t.id);
      case Bytes =>
        found := Exact(msg, t.value, t.id);
        var more := Quotes(msg, t.raw, t.id);
        found := found + more;
      case Bool => found := [];
    }
  }

  method TracerSpans(msg: string, tracers: seq<Tracer>) returns (out: seq<Span>)
    requires Usable(tracers)
    ensures out == SpansOf(msg, tracers)
    ensures Ordered(msg, out)
  {
    var all: seq<Span> := [];
    for k := 0 to |tracers|
      invariant all == Found(msg, tracers[..k])
    {
      assert tracers[..k + 1][..k] == tracers[..k];
      var found := FindBy(msg, tracers[k]);
      all := all + found;
    }
    assert tracers[..|tracers|] == tracers;
    out := KeepDisjoint(Sort(all));
    SpansOrdered(msg, tracers);
  }

  method KeepDisjoint(all: seq<Span>) returns (out: seq<Span>)
    ensures out == Disjoint(all)
  {
    out := [];
    for k := 0 to |all|
      invariant out == Disjoint(all[..k])
    {
      assert all[..k + 1][..k] == all[..k];
      if !(|out| > 0 && all[k].start < out[|out| - 1].end) {
        out := out + [all[k]];
      }
    }
    assert all[..|all|] == all;
  }

  /* ---- what the spans are ---- */

  predicate Inside(msg: string, s: Span) {
    s.start < s.end <= |msg|
  }

  /** Sorted, disjoint, non-empty and within the message. */
  predicate Ordered(msg: string, spans: seq<Span>) {
    && (forall k :: 0 <= k < |spans| ==> Inside(msg, spans[k]))
    && (forall i, k :: 0 <= i < k < |spans| ==> spans[i].end <= spans[k].start)
  }

  lemma {:induction false} ExactInside(msg: string, v: string, id: int, from: nat)
    requires from <= |msg|
    ensures forall s :: s in ExactFrom(msg, v, id, from) ==> Inside(msg, s) && s.id == id && msg[s.start..s.end] == v
    decreases |msg| - from
  {
    if v != "" && Index(msg, v, from) >= 0 {
      ExactInside(msg, v, id, Index(msg, v, from) + |v|);
    }
  }

  lemma {:induction false} IntInside(msg: string, v: string, id: int, from: nat)
    requires v != "" && from <= |msg|
    ensures forall s :: s in IntFrom(msg, v, id, from) ==>
              Inside(msg, s) && s.id == id && msg[s.start..s.end] == v && NoDigitBeside(msg, s.start, s.end)
    decreases |msg| - from
  {
    if Index(msg, v, from) >= 0 {
      IntInside(msg, v, id, Index(msg, v, from) + |v|);
    }
  }

  /** No whole occurrence is missed: each begins inside one that was found. */
  lemma {:induction false} ExactFound(msg: string, v: string, id: int, from: nat, p: nat) returns (s: Span)
    requires v != "" && from <= p && OccursAt(msg, v, p)
    ensures s in ExactFrom(msg, v, id, from) && s.start <= p < s.end && s.id == id
    decreases |msg| - from
  {
    var i := Index(msg, v, from);
    assert 0 <= i <= p;
    if p < i + |v| {
      s := Span(i, i + |v|, id);
    } else {
      s := ExactFound(msg, v, id, i + |v|, p);
    }
  }

  lemma DigitInside(msg: string, v: string, i: nat, q: nat)
    requires OccursAt(msg, v, i) && (forall k :: 0 <= k < |v| ==> IsDigit(v[k])) && i <= q < i + |v|
    ensures IsDigit(msg[q])
  {
    assert v[q - i] == msg[i + (q - i)];
  }

  lemma NoOverlap(msg: string, v: string, i: nat, p: nat)
    requires OccursAt(msg, v, i) && (forall k :: 0 <= k < |v| ==> IsDigit(v[k])) && i <= p
    requires NoDigitBeside(msg, p, p + |v|)
    ensures i == p || i + |v| <= p
  {
    if i < p < i + |v| {
      DigitInside(msg, v, i, p - 1);
    }
  }

  /** A number that stands alone is found as it stands: no other occurrence can overlap it. */
  lemma {:induction false} IntFound(msg: string, v: string, id: int, from: nat, p: nat)
    requires v != "" && (forall k :: 0 <= k < |v| ==> IsDigit(v[k])) && from <= p
    requires OccursAt(msg, v, p) && NoDigitBeside(msg, p, p + |v|)
    ensures Span(p, p + |v|, id) in IntFrom(msg, v, id, from)
    decreases |msg| - from
  {
    var i := Index(msg, v, from);
    assert 0 <= i <= p;
    NoOverlap(msg, v, i, p);
    if i < p {
      IntFound(msg, v, id, i + |v|, p);
    }
  }

  /** A quote begins with the head and is all that the message repeats of a candidate. */
  predicate IsQuote(msg: string, head: string, candidates: seq<string>, s: Span)
    requires Headed(head, candidates)
  {
    && Inside(msg, s) && s.end - s.start >= MIN_QUOTE && OccursAt(msg, head, s.start)
    && s.end - s.start == Quoted(msg, head, candidates, s.start)
  }

  lemma {:induction false} QuotesInside(msg: string, head: string, candidates: seq<string>, id: int, from: nat)
    requires Headed(head, candidates) && from <= |msg|
    ensures forall s :: s in QuotesFrom(msg, head, candidates, id, from) ==> IsQuote(msg, head, candidates, s) && s.id == id
    decreases |msg| - from
  {
    var s := Index(msg, head, from);
    if s >= 0 {
      QuotesInside(msg, head, candidates, id, s + Quoted(msg, head, candidates, s));
    }
  }

  lemma {:induction false} QuotesCover(msg: string, head: string, candidates: seq<string>, id: int, from: nat, p: nat)
    returns (s: Span)
    requires Headed(head, candidates) && from <= p && OccursAt(msg, head, p)
    ensures s in QuotesFrom(msg, head, candidates, id, from) && s.start <= p < s.end
    decreases |msg| - from
  {
    var i := Index(msg, head, from);
    assert 0 <= i <= p;
    var best := Quoted(msg, head, candidates, i);
    if p < i + best {
      s := Span(i, i + best, id);
    } else {
      s := QuotesCover(msg, head, candidates, id, i + best, p);
    }
  }

  /** No quote is missed, and each is what the message repeats of the tracer or of one of its lines:
      wherever the message holds the first five characters of a tracer, a quote of it covers that
      place. */
  lemma QuotesFound(msg: string, v: string, id: int, p: nat) returns (s: Span)
    requires |v| >= MIN_QUOTE && OccursAt(msg, v[..MIN_QUOTE], p)
    ensures s in QuotesOf(msg, v, id) && s.start <= p < s.end && s.id == id
    ensures Headed(Head(v), Candidates(v)) && IsQuote(msg, Head(v), Candidates(v), s)
  {
    assert Head(v) == v[..MIN_QUOTE];
    s := QuotesCover(msg, Head(v), Candidates(v), id, 0, p);
    QuotesInside(msg, Head(v), Candidates(v), id, 0);
  }

  lemma QuotesOfInside(msg: string, v: string, id: int)
    ensures forall s :: s in QuotesOf(msg, v, id) ==> Inside(msg, s) && s.id == id
  {
    if |v| >= MIN_QUOTE {
      QuotesInside(msg, Head(v), Candidates(v), id, 0);
    }
  }

  lemma {:induction false} FoundInside(msg: string, tracers: seq<Tracer>)
    requires Usable(tracers)
    ensures forall s :: s in Found(msg, tracers) ==> Inside(msg, s)
  {
    if tracers != [] {
      var n := |tracers| - 1;
      FoundInside(msg, tracers[..n]);
      var t := tracers[n];
      match t.kind
      case Int => IntInside(msg, t.value, t.id, 0);
      case Str => QuotesOfInside(msg, t.value, t.id);
      case Bytes =>
        ExactInside(msg, t.value, t.id, 0);
        QuotesOfInside(msg, t.raw, t.id);
      case Bool =>
    }
  }

  lemma {:induction false} DisjointComesFrom(sorted: seq<Span>)
    ensures forall s :: s in Disjoint(sorted) ==> s in sorted
  {
    if sorted != [] {
      DisjointComesFrom(sorted[..|sorted| - 1]);
    }
  }

  lemma {:induction false} DisjointOrdered(msg: string, sorted: seq<Span>)
    requires Sorted(sorted) && forall k :: 0 <= k < |sorted| ==> Inside(msg, sorted[k])
    ensures Ordered(msg, Disjoint(sorted))
  {
    if sorted != [] {
      var n := |sorted| - 1;
      DisjointOrdered(msg, sorted[..n]);
      var out := Disjoint(sorted[..n]);
      if out != [] && sorted[n].start >= out[|out| - 1].end {
        OrderedAppend(msg, out, sorted[n]);
      }
    }
  }

  lemma OrderedAppend(msg: string, out: seq<Span>, s: Span)
    requires Ordered(msg, out) && Inside(msg, s) && out != [] && out[|out| - 1].end <= s.start
    ensures Ordered(msg, out + [s])
  {
    forall i | 0 <= i < |out| ensures out[i].end <= s.start {
      assert i < |out| - 1 ==> out[i].end <= out[|out| - 1].start;
    }
  }

  /** The kept spans cover the start of every span of the sorted list. */
  lemma {:induction false} DisjointCovers(msg: string, sorted: seq<Span>)
    requires Sorted(sorted) && forall k :: 0 <= k < |sorted| ==> Inside(msg, sorted[k])
    ensures forall k :: 0 <= k < |sorted| ==> Covered(sorted[k], Disjoint(sorted))
  {
    if sorted != [] {
      var n := |sorted| - 1;
      DisjointCovers(msg, sorted[..n]);
      var out, all := Disjoint(sorted[..n]), Disjoint(sorted);
      forall k | 0 <= k < n ensures Covered(sorted[k], all) {
        assert Covered(sorted[..n][k], out);
        CoveredMore(sorted[k], out, all);
      }
      LastCovered(msg, sorted);
    }
  }

  lemma {:induction false} LastCovered(msg: string, sorted: seq<Span>)
    requires sorted != [] && Sorted(sorted) && Inside(msg, sorted[|sorted| - 1])
    ensures Covered(sorted[|sorted| - 1], Disjoint(sorted))
  {
    var n := |sorted| - 1;
    var out, all := Disjoint(sorted[..n]), Disjoint(sorted);
    if out != [] {
      DisjointComesFrom(sorted[..n]);
      LastIsEarlier(sorted, out);
    }
    var o := all[|all| - 1];
    assert o.start <= sorted[n].start < o.end;
  }

  /** The span begins inside a kept one. */
  predicate Covered(s: Span, out: seq<Span>) {
    exists k :: 0 <= k < |out| && out[k].start <= s.start < out[k].end
  }

  lemma CoveredMore(s: Span, out: seq<Span>, more: seq<Span>)
    requires Covered(s, out) && |out| <= |more| && out == more[..|out|]
    ensures Covered(s, more)
  {
    var k :| 0 <= k < |out| && out[k].start <= s.start < out[k].end;
    assert more[k] == out[k];
  }

  lemma LastIsEarlier(sorted: seq<Span>, out: seq<Span>)
    requires Sorted(sorted) && sorted != [] && out != []
    requires forall s :: s in out ==> s in sorted[..|sorted| - 1]
    ensures Before(out[|out| - 1], sorted[|sorted| - 1])
  {
    var s := out[|out| - 1];
    assert s in out;
  }

  lemma SpansOrdered(msg: string, tracers: seq<Tracer>)
    requires Usable(tracers)
    ensures Ordered(msg, SpansOf(msg, tracers))
    ensures forall s :: s in SpansOf(msg, tracers) ==> s in Found(msg, tracers)
    ensures forall s :: s in Found(msg, tracers) ==> Covered(s, SpansOf(msg, tracers))
  {
    var all, sorted := Found(msg, tracers), Sort(Found(msg, tracers));
    FoundInside(msg, tracers);
    SortIsSorted(all);
    forall s ensures s in sorted <==> s in all {
      assert s in multiset(sorted) <==> s in multiset(all);
    }
    forall k | 0 <= k < |sorted| ensures Inside(msg, sorted[k]) {
      assert sorted[k] in sorted;
    }
    DisjointComesFrom(sorted);
    DisjointOrdered(msg, sorted);
    DisjointCovers(msg, sorted);
  }

  /* ---- ties ---- */

  /** The same place, of whichever tracer. */
  predicate SamePlace(a: Span, b: Span) {
    a.start == b.start && a.end == b.end
  }

  predicate SamePlaces(a: seq<Span>, b: seq<Span>) {
    |a| == |b| && forall k :: 0 <= k < |a| ==> SamePlace(a[k], b[k])
  }

  function Places(spans: seq<Span>): (r: seq<(nat, nat)>)
    ensures |r| == |spans| && forall k :: 0 <= k < |spans| ==> r[k] == (spans[k].start, spans[k].end)
  {
    seq(|spans|, k requires 0 <= k < |spans| => (spans[k].start, spans[k].end))
  }

  lemma {:induction false} PlacesOf(a: seq<Span>, b: seq<Span>)
    requires multiset(a) == multiset(b)
    ensures multiset(Places(a)) == multiset(Places(b))
    decreases |a|
  {
    if a == [] {
      EmptyToo(a, b);
    } else {
      var n := |a| - 1;
      LastApart(a);
      assert a[n] in multiset(b);
      var k :| 0 <= k < |b| && b[k] == a[n];
      WithoutOne(b, k);
      Cancel(multiset(a[..n]), multiset(b[..k] + b[k + 1..]), multiset{a[n]});
      PlacesOf(a[..n], b[..k] + b[k + 1..]);
      PlacesSplit(a, n);
      PlacesSplit(b, k);
      assert a[..n] + a[n + 1..] == a[..n];
    }
  }

  lemma EmptyToo(a: seq<Span>, b: seq<Span>)
    requires a == [] && multiset(a) == multiset(b)
    ensures b == []
  {
    assert |b| == |multiset(b)| == |multiset(a)|;
  }

  lemma Cancel<T>(x: multiset<T>, y: multiset<T>, z: multiset<T>)
    requires x + z == y + z
    ensures x == y
  {
    assert x == (x + z) - z && y == (y + z) - z;
  }

  lemma WithoutOne<T>(b: seq<T>, k: nat)
    requires k < |b|
    ensures multiset(b) == multiset(b[..k] + b[k + 1..]) + multiset{b[k]}
  {
    assert b == b[..k] + [b[k]] + b[k + 1..];
  }

  lemma PlacesSplit(a: seq<Span>, k: nat)
    requires k < |a|
    ensures multiset(Places(a)) == multiset(Places(a[..k] + a[k + 1..])) + multiset{(a[k].start, a[k].end)}
  {
    var p, q := Places(a), Places(a[..k] + a[k + 1..]);
    assert p == p[..k] + [p[k]] + p[k + 1..];
    assert q == p[..k] + p[k + 1..];
  }

  predicate PlaceBefore(a: (nat, nat), b: (nat, nat)) {
    a.0 < b.0 || (a.0 == b.0 && a.1 >= b.1)
  }

  predicate PlacesSorted(p: seq<(nat, nat)>) {
    forall i, k :: 0 <= i < k < |p| ==> PlaceBefore(p[i], p[k])
  }

  /** Two ways of sorting the same places agree. */
  lemma {:induction false} SortedPlacesSame(p: seq<(nat, nat)>, q: seq<(nat, nat)>)
    requires multiset(p) == multiset(q) && PlacesSorted(p) && PlacesSorted(q)
    ensures p == q
    decreases |p|
  {
    SameLength(p, q);
    if p != [] {
      var n := |p| - 1;
      LastIsLast(p, q);
      LastIsLast(q, p);
      LessLast(p, q);
      SortedPlacesSame(p[..n], q[..n]);
      assert p == p[..n] + [p[n]] && q == q[..n] + [q[n]];
    }
  }

  lemma SameLength<T>(p: seq<T>, q: seq<T>)
    requires multiset(p) == multiset(q)
    ensures |p| == |q|
  {
    assert |p| == |multiset(p)| == |multiset(q)| == |q|;
  }

  lemma LessLast<T>(p: seq<T>, q: seq<T>)
    requires multiset(p) == multiset(q) && |p| == |q| > 0 && p[|p| - 1] == q[|q| - 1]
    ensures multiset(p[..|p| - 1]) == multiset(q[..|q| - 1])
  {
    var n := |p| - 1;
    WithoutOne(p, n);
    WithoutOne(q, n);
    assert p[..n] + p[n + 1..] == p[..n] && q[..n] + q[n + 1..] == q[..n];
    Cancel(multiset(p[..n]), multiset(q[..n]), multiset{p[n]});
  }

  lemma LastIsLast(p: seq<(nat, nat)>, q: seq<(nat, nat)>)
    requires |p| == |q| > 0 && multiset(p) == multiset(q) && PlacesSorted(q)
    ensures PlaceBefore(p[|p| - 1], q[|q| - 1])
  {
    assert p[|p| - 1] in multiset(q);
    var k :| 0 <= k < |q| && q[k] == p[|p| - 1];
  }

  lemma {:induction false} DisjointSame(a: seq<Span>, b: seq<Span>)
    requires SamePlaces(a, b)
    ensures SamePlaces(Disjoint(a), Disjoint(b))
  {
    if a != [] {
      DisjointSame(a[..|a| - 1], b[..|b| - 1]);
    }
  }

  /** However a sort orders the spans that tie, the places that are kept are the same; a tie can only
      change which of the tracers quoted at a place gives its id. */
  lemma TiesOnlyChangeIds(found: seq<Span>, sorted: seq<Span>)
    requires Sorted(sorted) && multiset(sorted) == multiset(found)
    ensures SamePlaces(Disjoint(sorted), Disjoint(Sort(found)))
  {
    SortIsSorted(found);
    PlacesOf(sorted, Sort(found));
    SortedPlacesSame(Places(sorted), Places(Sort(found)));
    forall k | 0 <= k < |sorted| ensures |Sort(found)| == |sorted| && SamePlace(sorted[k], Sort(found)[k]) {
      assert Places(sorted)[k] == Places(Sort(found))[k];
    }
    assert |Places(sorted)| == |Places(Sort(found))|;
    DisjointSame(sorted, Sort(found));
  }
}
