/**
 Redaction of a real message by the template that the same step gave on the trace input.

 Messages are bytes.  The regular expression is `^` literal `(.+?)` literal ... `$`, and the engine
 reads characters: what matters of it is that it finds a match when there is one.  A lazy engine is
 given here, and the results about the redacted text hold for any match.

 The engine reads a byte that is not UTF-8 as the replacement character, so a literal of the trace that
 holds that character matches such a byte of the real message.  A pattern cannot hold a byte that is not
 UTF-8: it does not compile.
 */
module Redaction {
  import opened Wrappers
  import opened Text
  import opened Runes
  import opened Attribution
  import opened Spans

  datatype Outcome = Nothing | Verbatim | Redacted | Withheld

  /** What is shown: a text, or the fixed notice that stands for a withheld message. */
  datatype Message = Text(content: string) | Notice

  /* ---- templates ---- */

  /** The text between the spans of a message from `last` on. */
  function Literals(msg: string, spans: seq<Span>, last: nat): (lits: seq<string>)
    requires Ordered(msg, spans) && last <= |msg| && (spans != [] ==> last <= spans[0].start)
    ensures |lits| == |spans| + 1
    decreases |spans|
  {
    if spans == [] then [msg[last..]]
    else [msg[last..spans[0].start]] + Literals(msg, spans[1..], spans[0].end)
  }

  /** The literals with one text between each two of them. */
  function Interleave<T>(lits: seq<seq<T>>, fills: seq<seq<T>>): seq<T>
    requires |lits| == |fills| + 1
    decreases |fills|
  {
    if fills == [] then lits[0] else lits[0] + fills[0] + Interleave(lits[1..], fills[1..])
  }

  /** A message with each span replaced by a text. */
  function Replaced(msg: string, spans: seq<Span>, fills: seq<string>): string
    requires Ordered(msg, spans) && |fills| == |spans|
  {
    Interleave(Literals(msg, spans, 0), fills)
  }

  function Texts(msg: string, spans: seq<Span>): seq<string>
    requires Ordered(msg, spans)
  {
    seq(|spans|, k requires 0 <= k < |spans| => msg[spans[k].start..spans[k].end])
  }

  function Tokens(spans: seq<Span>, token: int -> string): seq<string> {
    seq(|spans|, k requires 0 <= k < |spans| => token(spans[k].id))
  }

  lemma ThreeParts(msg: string, a: nat, b: nat, c: nat)
    requires a <= b <= c <= |msg|
    ensures msg[a..] == msg[a..b] + msg[b..c] + msg[c..]
  {
  }

  lemma {:induction false} ReplacedFrom(msg: string, spans: seq<Span>, last: nat)
    requires Ordered(msg, spans) && last <= |msg| && (spans != [] ==> last <= spans[0].start)
    ensures Interleave(Literals(msg, spans, last), Texts(msg, spans)) == msg[last..]
    decreases |spans|
  {
    if spans != [] {
      var s := spans[0];
      ReplacedFrom(msg, spans[1..], s.end);
      assert Texts(msg, spans)[1..] == Texts(msg, spans[1..]);
      assert Literals(msg, spans, last)[1..] == Literals(msg, spans[1..], s.end);
      ThreeParts(msg, last, s.start, s.end);
    }
  }

  /** Replacing each span by its own text changes nothing: the literals and the spans are the whole
      message in order. */
  lemma ReplacedByItself(msg: string, spans: seq<Span>)
    requires Ordered(msg, spans)
    ensures Replaced(msg, spans, Texts(msg, spans)) == msg
  {
    ReplacedFrom(msg, spans, 0);
  }

  /* ---- matches ---- */

  type Group = (nat, nat)

  /** The replacement character U+FFFD. */
  const REPLACEMENT := Good([0xEF as char, 0xBF as char, 0xBD as char])

  /** The text `piece` is read as the literal `lit`. */
  predicate ReadAs(piece: Runes, lit: Runes) {
    |piece| == |lit| && forall k :: 0 <= k < |lit| ==> piece[k] == lit[k] || (piece[k].Bad? && lit[k] == REPLACEMENT)
  }

  predicate AllRead(pieces: seq<Runes>, lits: seq<Runes>) {
    |pieces| == |lits| && forall k :: 0 <= k < |lits| ==> ReadAs(pieces[k], lits[k])
  }

  predicate NonEmpty<T>(fills: seq<seq<T>>) {
    forall k :: 0 <= k < |fills| ==> fills[k] != []
  }

  /** `s` is the rest of a message from `off`: the groups are where it holds a non-empty text between
      two literals. */
  predicate IsMatch(lits: seq<Runes>, s: Runes, off: nat, m: seq<Group>)
    decreases |m|
  {
    && |lits| == |m| + 1
    && if m == [] then ReadAs(s, lits[0])
       else
         && |lits[0]| <= |s| && ReadAs(s[..|lits[0]|], lits[0])
         && m[0].0 == off + |lits[0]| && m[0].0 < m[0].1 <= off + |s|
         && IsMatch(lits[1..], s[m[0].1 - off..], m[0].1, m[1..])
  }

  /** The first match of a lazy engine: each group as short as what follows it allows. */
  function Find(lits: seq<Runes>, s: Runes, off: nat): Option<seq<Group>>
    requires lits != []
    decreases |lits|, |s| + 2
  {
    if |lits| == 1 then
      if ReadAs(s, lits[0]) then Some([]) else None
    else if |lits[0]| <= |s| && ReadAs(s[..|lits[0]|], lits[0]) then Grow(lits, s, off, |lits[0]| + 1)
    else None
  }

  function Grow(lits: seq<Runes>, s: Runes, off: nat, end: nat): Option<seq<Group>>
    requires |lits| > 1 && |lits[0]| < end <= |s| + 1
    decreases |lits|, |s| + 1 - end
  {
    if end > |s| then None
    else
      var rest := Find(lits[1..], s[end..], off + end);
      if rest.Some? then Some([(off + |lits[0]|, off + end)] + rest.value)
      else Grow(lits, s, off, end + 1)
  }

  lemma {:induction false} FindSound(lits: seq<Runes>, s: Runes, off: nat)
    requires lits != []
    ensures Find(lits, s, off).Some? ==> IsMatch(lits, s, off, Find(lits, s, off).value)
    decreases |lits|, |s| + 2
  {
    if |lits| > 1 && |lits[0]| <= |s| && ReadAs(s[..|lits[0]|], lits[0]) {
      GrowSound(lits, s, off, |lits[0]| + 1);
    }
  }

  lemma {:induction false} GrowSound(lits: seq<Runes>, s: Runes, off: nat, end: nat)
    requires |lits| > 1 && |lits[0]| < end <= |s| + 1 && ReadAs(s[..|lits[0]|], lits[0])
    ensures Grow(lits, s, off, end).Some? ==> IsMatch(lits, s, off, Grow(lits, s, off, end).value)
    decreases |lits|, |s| + 1 - end
  {
    if end <= |s| {
      var rest := Find(lits[1..], s[end..], off + end);
      if rest.Some? {
        FindSound(lits[1..], s[end..], off + end);
        var m := [(off + |lits[0]|, off + end)] + rest.value;
        assert m[1..] == rest.value;
      } else {
        GrowSound(lits, s, off, end + 1);
      }
    }
  }

  lemma {:induction false} FindComplete(lits: seq<Runes>, s: Runes, off: nat, m: seq<Group>)
    requires IsMatch(lits, s, off, m)
    ensures Find(lits, s, off).Some?
    decreases |lits|, |s| + 2
  {
    if m != [] {
      GrowComplete(lits, s, off, |lits[0]| + 1, m);
    }
  }

  lemma {:induction false} GrowComplete(lits: seq<Runes>, s: Runes, off: nat, end: nat, m: seq<Group>)
    requires m != [] && IsMatch(lits, s, off, m) && |lits[0]| < end && off + end <= m[0].1
    ensures Grow(lits, s, off, end).Some?
    decreases |lits|, |s| + 1 - end
  {
    if off + end == m[0].1 {
      FindComplete(lits[1..], s[end..], off + end, m[1..]);
    } else {
      GrowComplete(lits, s, off, end + 1, m);
    }
  }

  /** What the message holds outside the groups of a match. */
  function Pieces(lits: seq<Runes>, s: Runes, off: nat, m: seq<Group>): seq<Runes>
    requires IsMatch(lits, s, off, m)
    decreases |m|
  {
    if m == [] then [s]
    else [s[..|lits[0]|]] + Pieces(lits[1..], s[m[0].1 - off..], m[0].1, m[1..])
  }

  /** A match cuts the message into pieces that are read as the literals, and non-empty texts. */
  lemma {:induction false} MatchFills(lits: seq<Runes>, s: Runes, off: nat, m: seq<Group>) returns (fills: seq<Runes>)
    requires IsMatch(lits, s, off, m)
    ensures |fills| == |m| && NonEmpty(fills) && AllRead(Pieces(lits, s, off, m), lits)
    ensures Interleave(Pieces(lits, s, off, m), fills) == s
    decreases |m|
  {
    if m == [] {
      fills := [];
    } else {
      var gs, ge := m[0].0 - off, m[0].1 - off;
      var rest := MatchFills(lits[1..], s[ge..], m[0].1, m[1..]);
      var pieces := Pieces(lits[1..], s[ge..], m[0].1, m[1..]);
      fills := [s[gs..ge]] + rest;
      assert fills[1..] == rest && ([s[..gs]] + pieces)[1..] == pieces;
      assert s == s[..gs] + s[gs..ge] + s[ge..];
    }
  }

  /** And a message so cut has a match. */
  lemma {:induction false} FillsMatch(lits: seq<Runes>, pieces: seq<Runes>, fills: seq<Runes>, off: nat) returns (m: seq<Group>)
    requires |lits| == |fills| + 1 && AllRead(pieces, lits) && NonEmpty(fills)
    ensures |m| == |fills| && IsMatch(lits, Interleave(pieces, fills), off, m)
    ensures Pieces(lits, Interleave(pieces, fills), off, m) == pieces
    decreases |fills|
  {
    if fills == [] {
      m := [];
    } else {
      var s, rest := Interleave(pieces, fills), Interleave(pieces[1..], fills[1..]);
      var gs := |lits[0]|;
      var ge := gs + |fills[0]|;
      var m1 := FillsMatch(lits[1..], pieces[1..], fills[1..], off + ge);
      m := [(off + gs, off + ge)] + m1;
      assert s[..gs] == pieces[0] && s[ge..] == rest;
      assert m[1..] == m1 && [pieces[0]] + pieces[1..] == pieces;
    }
  }

  /** The message is the template with some non-empty text in each gap. */
  ghost predicate Fits(lits: seq<Runes>, msg: Runes) {
    exists pieces: seq<Runes>, fills: seq<Runes> :: Cuts(lits, msg, pieces, fills)
  }

  predicate Cuts(lits: seq<Runes>, msg: Runes, pieces: seq<Runes>, fills: seq<Runes>) {
    |lits| == |fills| + 1 && AllRead(pieces, lits) && NonEmpty(fills) && Interleave(pieces, fills) == msg
  }

  /** The engine finds a match exactly when the message fits the template. */
  lemma FindIffFits(lits: seq<Runes>, msg: Runes)
    requires lits != []
    ensures Find(lits, msg, 0).Some? <==> Fits(lits, msg)
    ensures Find(lits, msg, 0).Some? ==> IsMatch(lits, msg, 0, Find(lits, msg, 0).value)
  {
    FindSound(lits, msg, 0);
    if Find(lits, msg, 0).Some? {
      var m := Find(lits, msg, 0).value;
      var fills := MatchFills(lits, msg, 0, m);
      assert Cuts(lits, msg, Pieces(lits, msg, 0, m), fills);
    }
    if Fits(lits, msg) {
      var pieces: seq<Runes>, fills: seq<Runes> :| Cuts(lits, msg, pieces, fills);
      var m := FillsMatch(lits, pieces, fills, 0);
      FindComplete(lits, msg, 0, m);
    }
  }

  /* ---- bytes and characters ---- */

  function DecodeAll(texts: seq<string>): (r: seq<Runes>)
    ensures |r| == |texts| && forall k :: 0 <= k < |texts| ==> r[k] == Decode(texts[k])
  {
    seq(|texts|, k requires 0 <= k < |texts| => Decode(texts[k]))
  }

  function EncodeAll(texts: seq<Runes>): (r: seq<string>)
    ensures |r| == |texts| && forall k :: 0 <= k < |texts| ==> r[k] == Encode(texts[k])
  {
    seq(|texts|, k requires 0 <= k < |texts| => Encode(texts[k]))
  }

  lemma AllDecodedThenEncoded(texts: seq<string>)
    ensures EncodeAll(DecodeAll(texts)) == texts
  {
    forall k | 0 <= k < |texts| ensures EncodeAll(DecodeAll(texts))[k] == texts[k] {
      DecodedThenEncoded(texts[k]);
    }
  }

  /* ---- the redacted text ---- */

  /** Writes the real message with its groups replaced, for whichever match was found: what comes out
      holds what was read as the template's literals and the tokens, and nothing of the groups. */
  method WriteRedacted(actual: Runes, lits: seq<Runes>, m: seq<Group>, tokens: seq<string>) returns (out: string)
    requires IsMatch(lits, actual, 0, m) && |tokens| == |m|
    ensures |Pieces(lits, actual, 0, m)| == |tokens| + 1 && AllRead(Pieces(lits, actual, 0, m), lits)
    ensures out == Interleave(EncodeAll(Pieces(lits, actual, 0, m)), tokens)
  {
    ghost var fills := MatchFills(lits, actual, 0, m);
    ghost var total := Interleave(EncodeAll(Pieces(lits, actual, 0, m)), tokens);
    out := "";
    var last: nat := 0;
    assert actual[0..] == actual && lits[0..] == lits && m[0..] == m && tokens[0..] == tokens;
    for i := 0 to |m|
      invariant last <= |actual| && IsMatch(lits[i..], actual[last..], last, m[i..])
      invariant |Pieces(lits[i..], actual[last..], last, m[i..])| == |m| - i + 1
      invariant out + Interleave(EncodeAll(Pieces(lits[i..], actual[last..], last, m[i..])), tokens[i..]) == total
    {
      WriteStep(actual, lits, m, tokens, i, last);
      Associative(out, Encode(actual[last..m[i].0]) + tokens[i],
                  Interleave(EncodeAll(Pieces(lits[i + 1..], actual[m[i].1..], m[i].1, m[i + 1..])), tokens[i + 1..]));
      out := out + (Encode(actual[last..m[i].0]) + tokens[i]);
      last := m[i].1;
    }
    out := out + Encode(actual[last..]);
  }

  /** One turn of the loop: the text before the group is the next piece. */
  lemma WriteStep(actual: Runes, lits: seq<Runes>, m: seq<Group>, tokens: seq<string>, i: nat, last: nat)
    requires |lits| == |m| + 1 && |tokens| == |m| && i < |m| && last <= |actual|
    requires IsMatch(lits[i..], actual[last..], last, m[i..])
    requires |Pieces(lits[i..], actual[last..], last, m[i..])| == |m| - i + 1
    ensures last <= m[i].0 < m[i].1 <= |actual|
    ensures IsMatch(lits[i + 1..], actual[m[i].1..], m[i].1, m[i + 1..])
    ensures |Pieces(lits[i + 1..], actual[m[i].1..], m[i].1, m[i + 1..])| == |m| - i
    ensures Interleave(EncodeAll(Pieces(lits[i..], actual[last..], last, m[i..])), tokens[i..])
         == (Encode(actual[last..m[i].0]) + tokens[i]) + Interleave(EncodeAll(Pieces(lits[i + 1..], actual[m[i].1..], m[i].1, m[i + 1..])), tokens[i + 1..])
  {
    assert lits[i..][1..] == lits[i + 1..] && m[i..][1..] == m[i + 1..] && tokens[i..][1..] == tokens[i + 1..];
    var gs, ge := m[i].0, m[i].1;
    assert actual[last..][ge - last..] == actual[ge..];
    assert actual[last..gs] == actual[last..][..gs - last];
    var pieces, rest := Pieces(lits[i..], actual[last..], last, m[i..]), Pieces(lits[i + 1..], actual[ge..], ge, m[i + 1..]);
    assert pieces == [actual[last..gs]] + rest;
    assert EncodeAll(pieces)[1..] == EncodeAll(rest);
  }

  lemma LiteralsStep(trace: string, spans: seq<Span>, i: nat, last: nat)
    requires Ordered(trace, spans) && i < |spans| && last <= spans[i].start
    ensures Ordered(trace, spans[i..]) && Ordered(trace, spans[i + 1..])
    ensures Literals(trace, spans[i..], last) == [trace[last..spans[i].start]] + Literals(trace, spans[i + 1..], spans[i].end)
  {
    assert spans[i..][1..] == spans[i + 1..];
  }

  method Pattern(trace: string, spans: seq<Span>) returns (lits: seq<string>)
    requires Ordered(trace, spans)
    ensures lits == Literals(trace, spans, 0)
  {
    lits := [];
    var last: nat := 0;
    ghost var total := Literals(trace, spans, 0);
    assert spans[0..] == spans;
    for i := 0 to |spans|
      invariant last <= |trace| && (i < |spans| ==> last <= spans[i].start)
      invariant Ordered(trace, spans[i..]) && lits + Literals(trace, spans[i..], last) == total
    {
      LiteralsStep(trace, spans, i, last);
      Associative(lits, [trace[last..spans[i].start]], Literals(trace, spans[i + 1..], spans[i].end));
      lits := lits + [trace[last..spans[i].start]];
      last := spans[i].end;
    }
    lits := lits + [trace[last..]];
  }

  /** A pattern of these literals compiles. */
  predicate Compiles(lits: seq<string>) {
    forall k :: 0 <= k < |lits| ==> IsUtf8(lits[k])
  }

  /** No literal holds the replacement character. */
  predicate NoReplacement(lits: seq<Runes>) {
    forall k :: 0 <= k < |lits| ==> REPLACEMENT !in lits[k]
  }

  /** The literals of the template that a trace message gives. */
  function Template(trace: string, tracers: seq<Tracer>): (lits: seq<string>)
    requires Usable(tracers)
    ensures |lits| == |SpansOf(trace, tracers)| + 1
  {
    SpansOrdered(trace, tracers);
    Literals(trace, SpansOf(trace, tracers), 0)
  }

  /** The real message is the trace message with each quote replaced by some non-empty text. */
  ghost predicate Explained(actual: string, trace: string, tracers: seq<Tracer>)
    requires Usable(tracers)
  {
    Fits(DecodeAll(Template(trace, tracers)), Decode(actual))
  }

  /** The outcome as a condition on both messages. */
  ghost function Expected(actual: string, trace: string, actualRC: int, traceRC: int, tracers: seq<Tracer>): Outcome
    requires Usable(tracers)
  {
    if actualRC != traceRC then Withheld
    else if SpansOf(trace, tracers) == [] then
      if actual != trace then Withheld else if trace == "" then Nothing else Verbatim
    else if Compiles(Template(trace, tracers)) && Explained(actual, trace, tracers) then Redacted
    else Withheld
  }

  /** The trace message with the tokens in place of its quotes, or what another outcome shows. */
  function Shown(outcome: Outcome, trace: string, tracers: seq<Tracer>, token: int -> string): Message
    requires Usable(tracers)
  {
    match outcome
    case Nothing => Text("")
    case Verbatim => Text(trace)
    case Redacted => Text(Interleave(Template(trace, tracers), Tokens(SpansOf(trace, tracers), token)))
    case Withheld => Notice
  }

  /** What the engine's match reads as the literals. */
  function PiecesFound(lits: seq<Runes>, actual: Runes): (pieces: seq<Runes>)
    requires lits != []
    ensures |pieces| == |lits|
  {
    FindSound(lits, actual, 0);
    if Find(lits, actual, 0).None? then lits
    else
      var m := Find(lits, actual, 0).value;
      PiecesLength(lits, actual, 0, m);
      Pieces(lits, actual, 0, m)
  }

  lemma PiecesLength(lits: seq<Runes>, s: Runes, off: nat, m: seq<Group>)
    requires IsMatch(lits, s, off, m)
    ensures |Pieces(lits, s, off, m)| == |lits|
  {
    var fills := MatchFills(lits, s, off, m);
  }

  /** What is read as the literals is the literals, where no literal holds the replacement character or
      the message holds no bad byte. */
  lemma CleanPieces(pieces: seq<Runes>, lits: seq<Runes>)
    requires AllRead(pieces, lits)
    requires NoReplacement(lits) || forall k :: 0 <= k < |pieces| ==> AllGood(pieces[k])
    ensures pieces == lits
  {
    forall k | 0 <= k < |lits| ensures pieces[k] == lits[k] {
      assert ReadAs(pieces[k], lits[k]);
      forall j | 0 <= j < |lits[k]| ensures pieces[k][j] == lits[k][j] {
        assert lits[k][j] in lits[k] && pieces[k][j] in pieces[k];
      }
    }
  }

  method RedactMessage(actual: string, trace: string, actualRC: int, traceRC: int, tracers: seq<Tracer>,
                       token: int -> string) returns (text: Message, outcome: Outcome)
    requires Usable(tracers)
    ensures outcome == Expected(actual, trace, actualRC, traceRC, tracers)
    ensures !outcome.Redacted? ==> text == Shown(outcome, trace, tracers, token)
    ensures outcome.Redacted? ==>
              var lits := DecodeAll(Template(trace, tracers));
              && AllRead(PiecesFound(lits, Decode(actual)), lits)
              && text == Text(Interleave(EncodeAll(PiecesFound(lits, Decode(actual))), Tokens(SpansOf(trace, tracers), token)))
  {
    if actualRC != traceRC {
      return Notice, Withheld;
    }
    var spans := TracerSpans(trace, tracers);
    if |spans| == 0 {
      if actual == trace && actual == "" {
        return Text(""), Nothing;
      } else if actual == trace {
        return Text(actual), Verbatim;
      }
      return Notice, Withheld;
    }
    text, outcome := ByTemplate(actual, trace, spans, Tokens(spans, token));
  }

  /** Redacts a message that fits the template of the trace message, and withholds another. */
  method ByTemplate(actual: string, trace: string, spans: seq<Span>, tokens: seq<string>)
    returns (text: Message, outcome: Outcome)
    requires Ordered(trace, spans) && |tokens| == |spans|
    ensures var lits := DecodeAll(Literals(trace, spans, 0));
            && outcome == (if Compiles(Literals(trace, spans, 0)) && Fits(lits, Decode(actual)) then Redacted else Withheld)
            && (outcome.Withheld? ==> text == Notice)
            && (outcome.Redacted? ==> AllRead(PiecesFound(lits, Decode(actual)), lits)
                                      && text == Text(Interleave(EncodeAll(PiecesFound(lits, Decode(actual))), tokens)))
  {
    var lits := Pattern(trace, spans);
    if !Compiles(lits) {
      return Notice, Withheld;
    }
    var runes, pattern := Decode(actual), DecodeAll(lits);
    FindIffFits(pattern, runes);
    var m := Find(pattern, runes, 0);
    if m.None? {
      return Notice, Withheld;
    }
    var out := WriteRedacted(runes, pattern, m.value, tokens);
    return Text(out), Redacted;
  }

  /* ---- what is shown holds no value ---- */

  /** The text that is shown for a message that fits. */
  function ShownFor(actual: string, lits: seq<string>, tokens: seq<string>): string
    requires |lits| == |tokens| + 1
  {
    Interleave(EncodeAll(PiecesFound(DecodeAll(lits), Decode(actual))), tokens)
  }

  /** A message of valid UTF-8 is shown as the template with the tokens, and so is any message where no
      literal holds the replacement character. */
  lemma CleanMessageIsHidden(actual: string, lits: seq<string>, tokens: seq<string>)
    requires |lits| == |tokens| + 1 && Fits(DecodeAll(lits), Decode(actual))
    requires NoReplacement(DecodeAll(lits)) || IsUtf8(actual)
    ensures ShownFor(actual, lits, tokens) == Interleave(lits, tokens)
  {
    var pattern, runes := DecodeAll(lits), Decode(actual);
    FindIffFits(pattern, runes);
    var m := Find(pattern, runes, 0).value;
    var fills := MatchFills(pattern, runes, 0, m);
    var pieces := Pieces(pattern, runes, 0, m);
    forall k | 0 <= k < |pieces| && IsUtf8(actual) ensures AllGood(pieces[k]) {
      PieceInside(pieces, fills, k);
      forall j | 0 <= j < |pieces[k]| ensures pieces[k][j].Good? {
        assert pieces[k][j] in pieces[k];
      }
    }
    CleanPieces(pieces, pattern);
    AllDecodedThenEncoded(lits);
  }

  lemma {:induction false} PieceInside(pieces: seq<Runes>, fills: seq<Runes>, k: nat)
    requires |pieces| == |fills| + 1 && k < |pieces|
    ensures forall r :: r in pieces[k] ==> r in Interleave(pieces, fills)
    decreases |fills|
  {
    if k > 0 {
      PieceInside(pieces[1..], fills[1..], k - 1);
      assert pieces[1..][k - 1] == pieces[k];
    }
  }

  /** How long a message that fits is at least. */
  function Shortest(lits: seq<Runes>): nat
    requires lits != []
  {
    |lits[0]| + (if |lits| == 1 then 0 else 1 + Shortest(lits[1..]))
  }

  lemma {:induction false} MatchIsLong(lits: seq<Runes>, s: Runes, off: nat, m: seq<Group>)
    requires IsMatch(lits, s, off, m)
    ensures |s| >= Shortest(lits)
    decreases |m|
  {
    if m != [] {
      MatchIsLong(lits[1..], s[m[0].1 - off..], m[0].1, m[1..]);
    }
  }

  /** A message that is no longer than it must be fits in one way. */
  lemma {:induction false} ShortestMatchIsOnly(lits: seq<Runes>, s: Runes, off: nat, m: seq<Group>, m': seq<Group>)
    requires IsMatch(lits, s, off, m) && IsMatch(lits, s, off, m') && |s| == Shortest(lits)
    ensures m == m'
    decreases |m|
  {
    if m != [] {
      MatchIsLong(lits[1..], s[m[0].1 - off..], m[0].1, m[1..]);
      MatchIsLong(lits[1..], s[m'[0].1 - off..], m'[0].1, m'[1..]);
      assert m[0] == m'[0];
      ShortestMatchIsOnly(lits[1..], s[m[0].1 - off..], m[0].1, m[1..], m'[1..]);
      assert m == [m[0]] + m[1..] && m' == [m'[0]] + m'[1..];
    }
  }

  lemma {:induction false} ShortestFill(pieces: seq<Runes>, lits: seq<Runes>, fills: seq<Runes>)
    requires |lits| == |fills| + 1 && AllRead(pieces, lits) && forall k :: 0 <= k < |fills| ==> |fills[k]| == 1
    ensures |Interleave(pieces, fills)| == Shortest(lits)
    decreases |fills|
  {
    if fills != [] {
      ShortestFill(pieces[1..], lits[1..], fills[1..]);
    }
  }

  /** Where each gap holds one character the engine's match is the one that was meant. */
  lemma ShortestIsFound(lits: seq<Runes>, pieces: seq<Runes>, fills: seq<Runes>)
    requires |lits| == |fills| + 1 && AllRead(pieces, lits) && forall k :: 0 <= k < |fills| ==> |fills[k]| == 1
    ensures Fits(lits, Interleave(pieces, fills))
    ensures PiecesFound(lits, Interleave(pieces, fills)) == pieces
  {
    var actual := Interleave(pieces, fills);
    assert Cuts(lits, actual, pieces, fills);
    var m := FillsMatch(lits, pieces, fills, 0);
    FindIffFits(lits, actual);
    ShortestFill(pieces, lits, fills);
    ShortestMatchIsOnly(lits, actual, 0, m, Find(lits, actual, 0).value);
  }

  /** The literals with one replacement character as a bad byte are still read as the literals. */
  lemma OneBad(lits: seq<string>) returns (pieces: seq<Runes>, i: nat)
    requires Compiles(lits) && !NoReplacement(DecodeAll(lits))
    ensures AllRead(pieces, DecodeAll(lits)) && i < |lits| && |Encode(pieces[i])| < |lits[i]|
    ensures forall k :: 0 <= k < |lits| && k != i ==> pieces[k] == Decode(lits[k])
    ensures forall k :: 0 <= k < |lits| ==> forall j :: 0 <= j < |pieces[k]| ==> Alone(pieces[k][j])
  {
    i :| 0 <= i < |lits| && REPLACEMENT in Decode(lits[i]);
    var runes := Decode(lits[i]);
    var j :| 0 <= j < |runes| && runes[j] == REPLACEMENT;
    pieces := DecodeAll(lits)[i := runes[j := Bad(NEVER)]];
    forall k | 0 <= k < |lits| ensures forall j :: 0 <= j < |Decode(lits[k])| ==> Alone(Decode(lits[k])[j]) {
      GoodIsAlone(lits[k]);
    }
    Shorter(runes, j);
    DecodedThenEncoded(lits[i]);
  }

  lemma Shorter(runes: Runes, j: nat)
    requires j < |runes| && runes[j] == REPLACEMENT
    ensures |Encode(runes[j := Bad(NEVER)])| == |Encode(runes)| - 2
  {
    var after := runes[j := Bad(NEVER)];
    assert runes == runes[..j] + ([REPLACEMENT] + runes[j + 1..]) && after == runes[..j] + ([Bad(NEVER)] + runes[j + 1..]);
    EncodedSum(runes[..j], [REPLACEMENT] + runes[j + 1..]);
    EncodedSum(runes[..j], [Bad(NEVER)] + runes[j + 1..]);
    assert ([REPLACEMENT] + runes[j + 1..])[1..] == runes[j + 1..] && ([Bad(NEVER)] + runes[j + 1..])[1..] == runes[j + 1..];
  }

  lemma {:induction false} ShorterWhole(a: seq<string>, b: seq<string>, fills: seq<string>, i: nat)
    requires |a| == |b| == |fills| + 1 && i < |a| && |a[i]| < |b[i]| && forall k :: 0 <= k < |a| && k != i ==> a[k] == b[k]
    ensures |Interleave(a, fills)| < |Interleave(b, fills)|
    decreases |fills|
  {
    if fills != [] {
      if i > 0 {
        ShorterWhole(a[1..], b[1..], fills[1..], i - 1);
      } else {
        assert a[1..] == b[1..];
      }
    }
  }

  lemma {:induction false} AllAlone(pieces: seq<Runes>, fills: seq<Runes>)
    requires |pieces| == |fills| + 1
    requires forall k :: 0 <= k < |pieces| ==> forall j :: 0 <= j < |pieces[k]| ==> Alone(pieces[k][j])
    requires forall k :: 0 <= k < |fills| ==> forall j :: 0 <= j < |fills[k]| ==> Alone(fills[k][j])
    ensures forall j :: 0 <= j < |Interleave(pieces, fills)| ==> Alone(Interleave(pieces, fills)[j])
    decreases |fills|
  {
    if fills != [] {
      AllAlone(pieces[1..], fills[1..]);
    }
  }

  /** A literal with the replacement character lets a bad byte of the real message through. */
  lemma BadByteShows(lits: seq<string>, tokens: seq<string>) returns (actual: string)
    requires |lits| == |tokens| + 1 && Compiles(lits) && !NoReplacement(DecodeAll(lits))
    ensures Fits(DecodeAll(lits), Decode(actual)) && ShownFor(actual, lits, tokens) != Interleave(lits, tokens)
  {
    var pieces, i := OneBad(lits);
    var fills: seq<Runes> := seq(|tokens|, _ => [Good("v")]);
    AllAlone(pieces, fills);
    actual := Encode(Interleave(pieces, fills));
    EncodedThenDecoded(Interleave(pieces, fills));
    ShortestIsFound(DecodeAll(lits), pieces, fills);
    forall k | 0 <= k < |lits| && k != i ensures EncodeAll(pieces)[k] == lits[k] {
      DecodedThenEncoded(lits[k]);
    }
    ShorterWhole(EncodeAll(pieces), lits, tokens, i);
  }

  /**
   Exactly when no literal of the trace message holds the replacement character, every real message
   that fits, whatever its values and its bytes, is shown as the trace message with the tokens.
   */
  lemma HidesAllIff(lits: seq<string>, tokens: seq<string>)
    requires |lits| == |tokens| + 1 && Compiles(lits)
    ensures (forall actual :: Fits(DecodeAll(lits), Decode(actual)) ==> ShownFor(actual, lits, tokens) == Interleave(lits, tokens))
            <==> NoReplacement(DecodeAll(lits))
  {
    if NoReplacement(DecodeAll(lits)) {
      forall actual | Fits(DecodeAll(lits), Decode(actual)) ensures ShownFor(actual, lits, tokens) == Interleave(lits, tokens) {
        CleanMessageIsHidden(actual, lits, tokens);
      }
    } else {
      var actual := BadByteShows(lits, tokens);
    }
  }

  /* ---- which values are explained ---- */

  /** No character can begin in one value and end in the next: a value is valid UTF-8, or a literal
      stands between it and the next. */
  predicate Separate(lits: seq<string>, values: seq<string>)
    requires |lits| == |values| + 1
  {
    forall k :: 0 <= k < |values| ==> IsUtf8(values[k]) || lits[k + 1] != "" || k + 1 == |values|
  }

  lemma {:induction false} DecodedInterleave(lits: seq<string>, values: seq<string>)
    requires |lits| == |values| + 1 && Compiles(lits) && Separate(lits, values)
    ensures Decode(Interleave(lits, values)) == Interleave(DecodeAll(lits), DecodeAll(values))
    decreases |values|
  {
    if values != [] {
      var rest := Interleave(lits[1..], values[1..]);
      DecodedRest(lits, values);
      DecodedInterleave(lits[1..], values[1..]);
      assert DecodeAll(lits)[1..] == DecodeAll(lits[1..]) && DecodeAll(values)[1..] == DecodeAll(values[1..]);
      DecodedThree(lits[0], values[0], rest);
    }
  }

  lemma DecodedThree(a: string, v: string, b: string)
    requires IsUtf8(a) && Cut(v, b)
    ensures Decode(a + v + b) == Decode(a) + Decode(v) + Decode(b)
  {
    assert a + v + b == a + (v + b);
    DecodedSum(a, v + b);
    DecodedSum(v, b);
  }

  lemma DecodedRest(lits: seq<string>, values: seq<string>)
    requires |lits| == |values| + 1 && values != [] && Compiles(lits) && Separate(lits, values)
    ensures Compiles(lits[1..]) && Separate(lits[1..], values[1..]) && Cut(values[0], Interleave(lits[1..], values[1..]))
  {
    Utf8Begins(lits[1]);
    forall k | 0 <= k < |values[1..]| ensures IsUtf8(values[1..][k]) || lits[1..][k + 1] != "" || k + 1 == |values[1..]| {
      assert values[1..][k] == values[k + 1] && lits[1..][k + 1] == lits[k + 2];
    }
    var rest := Interleave(lits[1..], values[1..]);
    if lits[1] != "" {
      assert rest[0] == lits[1][0];
    }
  }

  lemma ValuesFit(lits: seq<string>, values: seq<string>)
    requires |lits| == |values| + 1 && Compiles(lits) && Separate(lits, values) && NonEmpty(values)
    ensures Fits(DecodeAll(lits), Decode(Interleave(lits, values)))
  {
    DecodedInterleave(lits, values);
    var pattern, fills := DecodeAll(lits), DecodeAll(values);
    assert AllRead(pattern, pattern);
    assert Cuts(pattern, Decode(Interleave(lits, values)), pattern, fills);
  }

  /** Two quotes with nothing between them. */
  predicate Adjacent(lits: seq<string>, k: nat) {
    0 < k < |lits| - 1 && lits[k] == ""
  }

  /** Values of one character each, but for one character that stands in two adjacent values. */
  function OneSplit(n: nat, k: nat): (values: seq<string>)
    requires 0 < k < n
    ensures |values| == n && NonEmpty(values)
  {
    seq(n, j => if j == k - 1 then [0xC3 as char] else if j == k then [0xA9 as char] else "v")
  }

  lemma {:induction false} PlainLength(lits: seq<string>, values: seq<string>)
    requires |lits| == |values| + 1 && Compiles(lits) && forall k :: 0 <= k < |values| ==> values[k] == "v"
    ensures |Decode(Interleave(lits, values))| == Shortest(DecodeAll(lits))
    decreases |values|
  {
    if values != [] {
      var rest := Interleave(lits[1..], values[1..]);
      PlainLength(lits[1..], values[1..]);
      assert DecodeAll(lits)[1..] == DecodeAll(lits[1..]);
      DecodedSum(lits[0], "v" + rest);
      assert ("v" + rest)[1..] == rest && lits[0] + values[0] + rest == lits[0] + ("v" + rest);
    }
  }

  lemma {:induction false} SplitLength(lits: seq<string>, k: nat)
    requires Compiles(lits) && Adjacent(lits, k)
    ensures |Decode(Interleave(lits, OneSplit(|lits| - 1, k)))| < Shortest(DecodeAll(lits))
    decreases |lits|
  {
    var values := OneSplit(|lits| - 1, k);
    var rest := Interleave(lits[1..], values[1..]);
    assert DecodeAll(lits)[1..] == DecodeAll(lits[1..]);
    DecodedSum(lits[0], values[0] + rest);
    assert lits[0] + values[0] + rest == lits[0] + (values[0] + rest);
    if k > 1 {
      assert values[1..] == OneSplit(|lits| - 2, k - 1);
      SplitLength(lits[1..], k - 1);
      assert (values[0] + rest)[1..] == rest;
    } else {
      SplitFront(lits, values);
    }
  }

  lemma SplitFront(lits: seq<string>, values: seq<string>)
    requires |lits| == |values| + 1 && |values| >= 2 && Compiles(lits) && lits[1] == "" && values == OneSplit(|values|, 1)
    ensures |Decode(values[0] + Interleave(lits[1..], values[1..]))| < 1 + Shortest(DecodeAll(lits[1..]))
  {
    var last := Interleave(lits[2..], values[2..]);
    var rune: string := [0xC3 as char, 0xA9 as char];
    assert lits[1..][1..] == lits[2..] && values[1..][1..] == values[2..];
    assert values[0] + Interleave(lits[1..], values[1..]) == rune + last;
    assert RuneLength(rune + last) == 2 && (rune + last)[2..] == last;
    PlainLength(lits[2..], values[2..]);
    assert DecodeAll(lits[1..])[1..] == DecodeAll(lits[2..]);
  }

  /**
   Every message that holds some non-empty values where the trace quotes its tracers is explained
   exactly when the trace has no two quotes with nothing between them: in two such, one character of
   the real message could stand across both.
   */
  lemma ExplainsAllIff(lits: seq<string>)
    requires lits != [] && Compiles(lits)
    ensures (forall values: seq<string> :: |lits| == |values| + 1 && NonEmpty(values) ==> Fits(DecodeAll(lits), Decode(Interleave(lits, values))))
            <==> forall k :: !Adjacent(lits, k)
  {
    if exists k :: Adjacent(lits, k) {
      var k :| Adjacent(lits, k);
      var values := OneSplit(|lits| - 1, k);
      SplitLength(lits, k);
      var runes := Decode(Interleave(lits, values));
      if Fits(DecodeAll(lits), runes) {
        FindIffFits(DecodeAll(lits), runes);
        MatchIsLong(DecodeAll(lits), runes, 0, Find(DecodeAll(lits), runes, 0).value);
      }
    } else {
      forall values: seq<string> | |lits| == |values| + 1 && NonEmpty(values)
        ensures Fits(DecodeAll(lits), Decode(Interleave(lits, values)))
      {
        forall k | 0 <= k < |values| ensures IsUtf8(values[k]) || lits[k + 1] != "" || k + 1 == |values| {
          assert !Adjacent(lits, k + 1);
        }
        ValuesFit(lits, values);
      }
    }
  }

  /**
   Whatever non-empty values stand where the trace quotes its tracers, the outcome is `Redacted` and
   nothing of the values is shown; the tracers' own texts there would give the trace message back.
   */
  lemma ExplainedValuesAreHidden(trace: string, rc: int, tracers: seq<Tracer>, token: int -> string, values: seq<string>)
    requires Usable(tracers) && SpansOf(trace, tracers) != [] && Compiles(Template(trace, tracers))
    requires |values| == |SpansOf(trace, tracers)| && NonEmpty(values) && Separate(Template(trace, tracers), values)
    requires NoReplacement(DecodeAll(Template(trace, tracers)))
    requires Ordered(trace, SpansOf(trace, tracers))
    ensures var spans, lits := SpansOf(trace, tracers), Template(trace, tracers);
            var actual := Replaced(trace, spans, values);
            && Expected(actual, trace, rc, rc, tracers) == Redacted
            && ShownFor(actual, lits, Tokens(spans, token)) == Replaced(trace, spans, Tokens(spans, token))
            && Replaced(trace, spans, Texts(trace, spans)) == trace
  {
    var spans, lits := SpansOf(trace, tracers), Template(trace, tracers);
    ReplacedByItself(trace, spans);
    ValuesFit(lits, values);
    CleanMessageIsHidden(Replaced(trace, spans, values), lits, Tokens(spans, token));
  }
}
