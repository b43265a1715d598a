/**
 Marks read one per line from a stream, and from a terminal where a carriage return ends a line too.

 The scanner is an object that holds what was read and not yet split, the reads still to come, and
 the one fact the terminal's split function keeps between calls.  However the reads cut the bytes,
 it yields the lines of a one-pass split.
 */
module Marks {
  import opened Wrappers

  type Byte = b: int | 0 <= b < 256
  type Bytes = seq<Byte>

  const LF: Byte := 10
  const CR: Byte := 13

  const MAX_BODY := 1048576
  const MAX_MARKS := 1024
  const TERMINAL_LINE := 4095

  /* ---- one pass over the bytes ---- */

  predicate EndsLine(b: Byte, terminal: bool) {
    b == LF || (terminal && b == CR)
  }

  /** The first byte at or after `from` that ends a line, or the length. */
  function IndexEndFrom(b: Bytes, terminal: bool, from: nat): (i: nat)
    requires from <= |b|
    ensures from <= i <= |b|
    ensures i < |b| ==> EndsLine(b[i], terminal)
    ensures forall k :: from <= k < i ==> !EndsLine(b[k], terminal)
    decreases |b| - from
  {
    if from == |b| || EndsLine(b[from], terminal) then from else IndexEndFrom(b, terminal, from + 1)
  }

  function IndexEnd(b: Bytes, terminal: bool): nat {
    IndexEndFrom(b, terminal, 0)
  }

  /** A line: its mark, the bytes of the terminal's line it counts for, whether a line feed ended it,
      and its size with its end. */
  datatype Line = Line(mark: Bytes, counted: nat, ended: bool, size: nat)

  function First(b: Bytes, terminal: bool): (l: Line)
    requires b != []
    ensures 0 < l.size <= |b|
  {
    var i := IndexEnd(b, terminal);
    if i == |b| then Line(b, |b|, false, |b|)
    else if b[i] == LF then Line(if i > 0 && b[i - 1] == CR then b[..i - 1] else b[..i], i, true, i + 1)
    else if i + 1 < |b| && b[i + 1] == LF then Line(b[..i], i + 1, true, i + 2)
    else Line(b[..i], i + 1, false, i + 1)
  }

  datatype Refusal = TooLarge | TooMany | NotText(position: nat) | MayBeCut(position: nat)

  datatype Result = Ok(marks: seq<Bytes>) | Refused(why: Refusal)

  /** The marks of the bytes: one per line, up to the first empty line or the end.  `line` is how
      much of the terminal's line was counted already. */
  function MarksOf(b: Bytes, terminal: bool, valid: Bytes -> bool, marks: seq<Bytes>, line: nat): Result
    decreases |b|
  {
    if b == [] || First(b, terminal).mark == [] then Ok(marks)
    else
      var l := First(b, terminal);
      if |marks| == MAX_MARKS then Refused(TooMany)
      else if !valid(l.mark) then Refused(NotText(|marks| + 1))
      else if terminal && line + l.counted >= TERMINAL_LINE then Refused(MayBeCut(|marks| + 1))
      else MarksOf(b[l.size..], terminal, valid, marks + [l.mark], if l.ended then 0 else line + l.counted)
  }

  /** A line that is neither empty nor refused adds its mark. */
  lemma {:induction false} MarksTake(b: Bytes, terminal: bool, valid: Bytes -> bool, marks: seq<Bytes>, line: nat, l: Line, rest: Bytes)
    requires b != [] && l == First(b, terminal) && rest == b[l.size..] && l.mark != [] && |marks| != MAX_MARKS && valid(l.mark)
    requires !(terminal && line + l.counted >= TERMINAL_LINE)
    ensures MarksOf(b, terminal, valid, marks, line)
            == MarksOf(rest, terminal, valid, marks + [l.mark], if l.ended then 0 else line + l.counted)
  {
  }

  /* ---- what is typed is what is read ---- */

  datatype End = ByLF | ByCR | ByCRLF

  function EndBytes(e: End): Bytes {
    match e
    case ByLF => [LF]
    case ByCR => [CR]
    case ByCRLF => [CR, LF]
  }

  datatype TypedLine = TypedLine(mark: Bytes, end: End)

  /** The bytes of marks typed with any mixture of line ends. */
  function Typed(lines: seq<TypedLine>): Bytes {
    if lines == [] then [] else lines[0].mark + EndBytes(lines[0].end) + Typed(lines[1..])
  }

  function MarksIn(lines: seq<TypedLine>): seq<Bytes> {
    if lines == [] then [] else [lines[0].mark] + MarksIn(lines[1..])
  }

  predicate Plain(mark: Bytes) {
    mark != [] && forall k :: 0 <= k < |mark| ==> mark[k] != CR && mark[k] != LF
  }

  lemma {:induction false} IndexEndIs(b: Bytes, terminal: bool, i: nat)
    requires i < |b| && EndsLine(b[i], terminal) && forall k :: 0 <= k < i ==> !EndsLine(b[k], terminal)
    ensures IndexEnd(b, terminal) == i
  {
  }

  /** The line that a typed line is read as. */
  function LineOf(l: TypedLine): Line {
    Line(l.mark, |l.mark| + (if l.end.ByLF? then 0 else 1), !l.end.ByCR?, |l.mark| + |EndBytes(l.end)|)
  }

  lemma {:induction false} FirstTyped(l: TypedLine, rest: Bytes)
    requires Plain(l.mark) && (rest != [] ==> rest[0] != LF)
    ensures First(l.mark + EndBytes(l.end) + rest, true) == LineOf(l)
  {
    var mark := l.mark;
    var b := mark + EndBytes(l.end) + rest;
    forall k | 0 <= k < |mark| ensures b[k] == mark[k] {
    }
    IndexEndIs(b, true, |mark|);
    assert b[..|mark|] == mark;
    assert b[|mark| - 1] == mark[|mark| - 1];
  }

  predicate AllPlain(lines: seq<TypedLine>, valid: Bytes -> bool) {
    forall k :: 0 <= k < |lines| ==> Plain(lines[k].mark) && valid(lines[k].mark)
  }

  lemma {:induction false} TypedStarts(lines: seq<TypedLine>, valid: Bytes -> bool)
    requires AllPlain(lines, valid)
    ensures Typed(lines) != [] ==> Typed(lines)[0] != LF
  {
    if lines != [] {
      assert Typed(lines)[0] == lines[0].mark[0];
    }
  }

  function CountAfter(l: TypedLine, line: nat): nat {
    if LineOf(l).ended then 0 else line + LineOf(l).counted
  }

  lemma RestAfter(a: Bytes, rest: Bytes)
    ensures (a + rest)[|a|..] == rest
  {
  }

  lemma {:induction false} TypedFirst(l: TypedLine, rest: Bytes, valid: Bytes -> bool, before: seq<Bytes>, line: nat)
    requires Plain(l.mark) && valid(l.mark) && (rest != [] ==> rest[0] != LF)
    requires |before| < MAX_MARKS && line + |l.mark| + |EndBytes(l.end)| < TERMINAL_LINE
    ensures MarksOf(l.mark + EndBytes(l.end) + rest, true, valid, before, line)
            == MarksOf(rest, true, valid, before + [l.mark], CountAfter(l, line))
  {
    FirstTyped(l, rest);
    RestAfter(l.mark + EndBytes(l.end), rest);
    MarksTake(l.mark + EndBytes(l.end) + rest, true, valid, before, line, LineOf(l), rest);
  }

  lemma {:induction false} MarksInStep(lines: seq<TypedLine>, before: seq<Bytes>)
    requires lines != []
    ensures before + MarksIn(lines) == (before + [lines[0].mark]) + MarksIn(lines[1..])
    ensures |Typed(lines)| == |lines[0].mark| + |EndBytes(lines[0].end)| + |Typed(lines[1..])|
  {
    var rest := MarksIn(lines[1..]);
    assert MarksIn(lines) == [lines[0].mark] + rest;
    assert before + ([lines[0].mark] + rest) == (before + [lines[0].mark]) + rest;
  }

  /** Marks typed with any mixture of line ends, and short enough not to be cut, are read back. */
  lemma {:induction false} TypedMarksReadBack(lines: seq<TypedLine>, valid: Bytes -> bool, before: seq<Bytes>, line: nat)
    requires AllPlain(lines, valid)
    requires |before| + |lines| <= MAX_MARKS && line + |Typed(lines)| < TERMINAL_LINE
    ensures MarksOf(Typed(lines), true, valid, before, line) == Ok(before + MarksIn(lines))
    decreases |lines|
  {
    if lines == [] {
      assert before + MarksIn(lines) == before;
    } else {
      MarksInStep(lines, before);
      TypedMarksReadBack(lines[1..], valid, before + [lines[0].mark], CountAfter(lines[0], line));
      TypedStarts(lines[1..], valid);
      TypedFirst(lines[0], Typed(lines[1..]), valid, before, line);
    }
  }

  /* ---- the scanner ---- */

  function Flat(chunks: seq<Bytes>): Bytes {
    if chunks == [] then [] else chunks[0] + Flat(chunks[1..])
  }

  /** What is left once a pending line feed is dropped. */
  function Undropped(b: Bytes, dropLF: bool): Bytes {
    if dropLF && b != [] && b[0] == LF then b[1..] else b
  }

  /** The two ways a token can hold a line: with its whole end, or with the carriage return of an end
      whose line feed comes in a later read. */
  predicate TokenOf(token: Bytes, b: Bytes, terminal: bool)
    requires b != []
  {
    var l := First(b, terminal);
    || token == b[..l.size]
    || (terminal && l.ended && l.size >= 2 && b[l.size - 2] == CR && token == b[..l.size - 1])
  }

  lemma RestAhead(data: Bytes, tail: Bytes, dropLF: bool)
    requires data != [] || tail == []
    ensures Undropped(data + tail, dropLF) == Undropped(data, dropLF) + tail
  {
  }

  lemma IndexEndMore(b: Bytes, tail: Bytes, terminal: bool)
    requires IndexEnd(b, terminal) < |b|
    ensures IndexEnd(b + tail, terminal) == IndexEnd(b, terminal)
  {
    forall k | 0 <= k < |b| ensures (b + tail)[k] == b[k] {
    }
    IndexEndIs(b + tail, terminal, IndexEnd(b, terminal));
  }

  /** How much of the data the first token takes, if they hold one. */
  function Cut(rest: Bytes, terminal: bool, atEOF: bool): (n: Option<nat>)
    ensures n.Some? ==> 0 < n.value <= |rest|
  {
    var i := IndexEnd(rest, terminal);
    if i == |rest| then
      if atEOF && rest != [] then Some(|rest|) else None
    else if rest[i] == CR && i + 1 < |rest| && rest[i + 1] == LF then Some(i + 2)
    else Some(i + 1)
  }

  /** The data end in a carriage return that ends the first line. */
  predicate EndsInCR(rest: Bytes, terminal: bool) {
    var i := IndexEnd(rest, terminal);
    i < |rest| && rest[i] == CR && i + 1 == |rest|
  }

  /** Where the first token ends, and whether a carriage return at the end of the data ends it. */
  method FirstToken(rest: Bytes, terminal: bool, atEOF: bool) returns (n: Option<nat>, cr: bool)
    ensures n == Cut(rest, terminal, atEOF) && (n.Some? ==> cr == EndsInCR(rest, terminal))
  {
    var i := 0;
    while i < |rest| && rest[i] != LF && !(terminal && rest[i] == CR)
      invariant i <= |rest| && forall k :: 0 <= k < i ==> !EndsLine(rest[k], terminal)
    {
      i := i + 1;
    }
    if i == |rest| {
      return if atEOF && |rest| > 0 then Some(|rest|) else None, false;
    }
    if rest[i] == CR && i + 1 < |rest| && rest[i + 1] == LF {
      return Some(i + 2), false;
    }
    return Some(i + 1), rest[i] == CR && i + 1 == |rest|;
  }

  /** A token cut from the data read so far holds the first line of all that is ahead. */
  lemma TokenFits(rest: Bytes, tail: Bytes, terminal: bool, atEOF: bool, n: nat)
    requires (atEOF ==> tail == []) && Cut(rest, terminal, atEOF) == Some(n)
    ensures var all := rest + tail;
            && TokenOf(rest[..n], all, terminal)
            && Undropped(rest[n..] + tail, EndsInCR(rest, terminal)) == all[First(all, terminal).size..]
  {
    var i := IndexEnd(rest, terminal);
    if i == |rest| {
      assert rest + tail == rest && rest[..n] == rest;
      assert rest[n..] + tail == [];
    } else if rest[i] == CR && i + 1 == |rest| && tail != [] && tail[0] == LF {
      CutEnd(rest, tail, terminal);
    } else {
      WholeEnd(rest, tail, terminal, n);
    }
  }

  lemma WholeEnd(rest: Bytes, tail: Bytes, terminal: bool, n: nat)
    requires var i := IndexEnd(rest, terminal);
             && i < |rest| && !(rest[i] == CR && i + 1 == |rest| && tail != [] && tail[0] == LF)
             && n == if rest[i] == CR && i + 1 < |rest| && rest[i + 1] == LF then i + 2 else i + 1
    ensures var all := rest + tail;
            && First(all, terminal).size == n && rest[..n] == all[..n]
            && rest[n..] + tail == all[n..]
            && (rest[IndexEnd(rest, terminal)] == CR && IndexEnd(rest, terminal) + 1 == |rest| ==> all[n..] == [] || all[n] != LF)
  {
    IndexEndMore(rest, tail, terminal);
    var i, all := IndexEnd(rest, terminal), rest + tail;
    assert all[i] == rest[i] && rest[..n] == all[..n] && rest[n..] + tail == all[n..];
    if rest[i] == CR {
      if i + 1 < |rest| {
        assert all[i + 1] == rest[i + 1];
      } else if tail != [] {
        assert all[i + 1] == tail[0] && tail[0] != LF;
      } else {
        assert i + 1 == |all|;
      }
      assert First(all, terminal).size == n;
    } else {
      assert rest[i] == LF && n == i + 1;
      assert First(all, terminal).size == i + 1;
    }
  }

  lemma CutEnd(rest: Bytes, tail: Bytes, terminal: bool)
    requires var i := IndexEnd(rest, terminal);
             i < |rest| && rest[i] == CR && i + 1 == |rest| && tail != [] && tail[0] == LF
    ensures var all := rest + tail;
            var l := First(all, terminal);
            && terminal && l.ended && l.size == |rest| + 1 && all[l.size - 2] == CR
            && rest[..|rest|] == all[..l.size - 1]
            && rest[|rest|..] + tail == tail && tail[1..] == all[l.size..]
  {
    IndexEndMore(rest, tail, terminal);
    var all := rest + tail;
    assert all[|rest|] == LF;
  }

  /** What one call of the split function does with the data it is given. */
  predicate SplitIs(data: Bytes, dropLF: bool, terminal: bool, atEOF: bool,
                    advance: nat, token: Option<Bytes>, dropLF': bool, skipped: nat)
  {
    var rest := Undropped(data, dropLF);
    var n := Cut(rest, terminal, atEOF);
    && skipped == |data| - |rest|
    && (n.None? ==> token == None && advance == skipped && dropLF' == (data == [] && dropLF))
    && (n.Some? ==> token == Some(rest[..n.value]) && advance == skipped + n.value && dropLF' == EndsInCR(rest, terminal))
  }

  /** One call, seen from all that is ahead: it changes nothing there or takes the first line. */
  lemma SplitAhead(data: Bytes, tail: Bytes, dropLF: bool, terminal: bool, atEOF: bool,
                   advance: nat, token: Option<Bytes>, dropLF': bool, skipped: nat)
    requires SplitIs(data, dropLF, terminal, atEOF, advance, token, dropLF', skipped)
    requires (data != [] || atEOF) && (atEOF ==> tail == [])
    ensures advance <= |data|
    ensures var b, b' := Undropped(data + tail, dropLF), Undropped(data[advance..] + tail, dropLF');
            && (token.None? ==>
                  && b' == b && (atEOF ==> data[advance..] + tail == [])
                  && skipped + |data[advance..] + tail| - |b'| == |data + tail| - |b|)
            && (token.Some? ==>
                  && b != [] && TokenOf(token.value, b, terminal) && b' == b[First(b, terminal).size..]
                  && skipped == |data + tail| - |b|)
  {
    var rest := Undropped(data, dropLF);
    RestAhead(data, tail, dropLF);
    if token.Some? {
      TokenFits(rest, tail, terminal, atEOF, |token.value|);
      assert data[advance..] == rest[|token.value|..];
    } else {
      assert data[advance..] == rest;
    }
  }

  class Scanner {
    const terminal: bool
    const eofWithLast: bool
    ghost const input: Bytes
    var chunks: seq<Bytes>
    var buf: Bytes
    var eof: bool
    var tooLong: bool
    var dropLF: bool
    var dropped: nat
    ghost var taken: nat
    ghost var drops: nat

    ghost function Rest(): Bytes
      reads this
    {
      buf + Flat(chunks)
    }

    /** The bytes still to be split into lines. */
    ghost function Ahead(): Bytes
      reads this
    {
      Undropped(Rest(), dropLF)
    }

    /** One when the next line feed is the second half of an end, nothing otherwise. */
    ghost function Pending(): (n: nat)
      reads this
      ensures n <= 1
    {
      |Rest()| - |Ahead()|
    }

    /** Every byte of the input is in a token, was dropped, or is still ahead. */
    ghost predicate Valid()
      reads this
    {
      && |input| == taken + drops + |Rest()|
      && (eof ==> chunks == [])
      && (dropLF ==> terminal)
    }

    constructor (chunks: seq<Bytes>, terminal: bool, eofWithLast: bool)
      ensures Valid() && input == Flat(chunks) && Ahead() == Flat(chunks) && this.terminal == terminal
      ensures dropped == 0 && !dropLF && !tooLong
    {
      this.terminal, this.eofWithLast, this.input := terminal, eofWithLast, Flat(chunks);
      this.chunks, buf, eof, tooLong, dropLF, dropped := chunks, [], false, false, false, 0;
      taken, drops := 0, 0;
    }

    /** The split function: how far to advance and the token, if the data hold one. */
    method Split(data: Bytes, atEOF: bool) returns (advance: nat, token: Option<Bytes>)
      requires dropLF ==> terminal
      modifies this`dropLF, this`dropped
      ensures dropLF ==> terminal
      ensures dropped >= old(dropped)
      ensures SplitIs(data, old(dropLF), terminal, atEOF, advance, token, dropLF, dropped - old(dropped))
    {
      var skip := 0;
      if dropLF && |data| > 0 {
        dropLF := false;
        if data[0] == LF {
          skip := 1;
          dropped := dropped + 1;
        }
      }
      var rest := data[skip..];
      var n, cr := FirstToken(rest, terminal, atEOF);
      if n.None? {
        return skip, None;
      }
      if cr {
        dropLF := true;
      }
      return skip + n.value, Some(rest[..n.value]);
    }

    /** Splits what was read so far once. */
    method Take() returns (token: Option<Bytes>)
      requires Valid() && (buf != [] || eof)
      modifies this`buf, this`dropLF, this`dropped, this`taken, this`drops
      ensures Valid() && drops - old(drops) == dropped - old(dropped) && dropped >= old(dropped)
      ensures token.None? ==> Ahead() == old(Ahead()) && taken == old(taken) && (eof ==> Rest() == [])
      ensures token.None? ==> dropped + Pending() == old(dropped) + old(Pending())
      ensures token.Some? ==> dropped == old(dropped) + old(Pending())
      ensures token.Some? ==> old(Ahead()) != [] && TokenOf(token.value, old(Ahead()), terminal)
                              && Ahead() == old(Ahead())[First(old(Ahead()), terminal).size..]
                              && taken == old(taken) + |token.value|
    {
      ghost var data, d, n := buf, dropLF, dropped;
      var advance;
      advance, token := Split(buf, eof);
      SplitAhead(data, Flat(chunks), d, terminal, eof, advance, token, dropLF, dropped - n);
      buf := buf[advance..];
      drops := drops + (dropped - n);
      if token.Some? {
        taken := taken + |token.value|;
      }
    }

    /** Reads on, or finds the end. */
    method Fill()
      requires Valid() && !eof
      modifies this`chunks, this`buf, this`eof
      ensures Valid() && Rest() == old(Rest())
      ensures |chunks| + (if eof then 0 else 1) < old(|chunks| + 1)
    {
      if |chunks| == 0 {
        eof := true;
      } else {
        assert buf + (chunks[0] + Flat(chunks[1..])) == (buf + chunks[0]) + Flat(chunks[1..]);
        buf := buf + chunks[0];
        chunks := chunks[1..];
        eof := |chunks| == 0 && eofWithLast;
      }
    }

    /** The next line, whichever reads it takes to see it. */
    method Scan() returns (ok: bool, token: Bytes)
      requires Valid()
      modifies this`chunks, this`buf, this`eof, this`tooLong, this`dropLF, this`dropped, this`taken, this`drops
      ensures Valid() && drops - old(drops) == dropped - old(dropped) && dropped >= old(dropped)
      ensures ok ==> !tooLong && old(Ahead()) != [] && TokenOf(token, old(Ahead()), terminal)
                     && Ahead() == old(Ahead())[First(old(Ahead()), terminal).size..]
                     && taken == old(taken) + |token| && dropped == old(dropped) + old(Pending())
      ensures !ok ==> taken == old(taken) && (tooLong ==> |buf| >= MAX_BODY) && (!tooLong ==> old(Ahead()) == [] && Rest() == [])
    {
      tooLong := false;
      while true
        invariant Valid() && Ahead() == old(Ahead()) && taken == old(taken) && !tooLong
        invariant drops - old(drops) == dropped - old(dropped) && dropped >= old(dropped)
        invariant dropped + Pending() == old(dropped) + old(Pending())
        decreases |chunks| + (if eof then 0 else 1)
      {
        if |buf| > 0 || eof {
          var t := Take();
          if t.Some? {
            return true, t.value;
          }
        }
        if eof {
          return false, [];
        }
        if |buf| >= MAX_BODY {
          tooLong := true;
          return false, [];
        }
        Fill();
      }
    }
  }

  /* ---- marks ---- */

  function CutLF(token: Bytes): (Bytes, bool) {
    if token != [] && token[|token| - 1] == LF then (token[..|token| - 1], true) else (token, false)
  }

  function TrimCR(b: Bytes): Bytes {
    if b != [] && b[|b| - 1] == CR then b[..|b| - 1] else b
  }

  /** What is made of a token does not depend on which of the two ways it holds its line. */
  lemma TokenLine(token: Bytes, b: Bytes, terminal: bool)
    requires b != [] && TokenOf(token, b, terminal)
    ensures var (raw, ended) := CutLF(token);
            var l := First(b, terminal);
            && |raw| == l.counted
            && (if ended || terminal then TrimCR(raw) else raw) == l.mark
            && (ended ==> l.ended)
            && (ended == l.ended <==> |token| == l.size) && (ended != l.ended ==> |token| == l.size - 1)
  {
  }

  /** What the loop learns of one line: its mark, the count of the terminal's line up to its end,
      whether its token had the line feed, and how many bytes were read for it. */
  datatype Seen = Seen(ok: bool, mark: Bytes, line: nat, ended: bool, size: nat)

  method ReadLine(s: Scanner, line: nat) returns (r: Seen)
    requires s.Valid() && s.dropped == 0
    modifies s
    ensures s.Valid()
    ensures !r.ok ==> s.taken == old(s.taken) && (s.tooLong ==> |s.buf| >= MAX_BODY) && (!s.tooLong ==> old(s.Ahead()) == [])
    ensures r.ok ==> old(s.Ahead()) != [] && s.dropped == 0 && !s.tooLong && s.taken + s.drops == old(s.taken + s.drops) + r.size
    ensures r.ok ==>
              var l := First(old(s.Ahead()), s.terminal);
              && r.mark == l.mark && r.line == (if old(s.Pending()) > 0 then 0 else line) + l.counted
              && s.Ahead() == old(s.Ahead())[l.size..]
              && (l.ended <==> r.ended || s.Pending() > 0)
  {
    ghost var ahead := s.Ahead();
    var ok, token := s.Scan();
    if !ok {
      return Seen(false, [], line, false, 0);
    }
    TokenLine(token, ahead, s.terminal);
    var n := if s.dropped > 0 then 0 else line;
    var size := |token| + s.dropped;
    s.dropped := 0;
    var (raw, ended) := CutLF(token);
    var m := raw;
    if ended {
      m := TrimCR(raw);
    } else if s.terminal {
      m := TrimCR(raw);
    }
    return Seen(true, m, n + |raw|, ended, size);
  }

  /** What becomes of one line. */
  datatype Judged = End | Refuse(why: Refusal) | Take(mark: Bytes, line: nat, total: nat)

  /** Reads one line and judges it, as the one-pass split does. */
  method NextMark(s: Scanner, valid: Bytes -> bool, marks: seq<Bytes>, line: nat, total: nat) returns (j: Judged)
    requires s.Valid() && s.dropped == 0 && total == s.taken + s.drops
    modifies s
    ensures s.Valid()
    ensures j.Refuse? && j.why.TooLarge? ==> s.taken + s.drops > MAX_BODY || |s.buf| >= MAX_BODY
    ensures j.Take? ==> s.dropped == 0 && j.total == s.taken + s.drops && old(s.Ahead()) != [] && |s.Ahead()| < old(|s.Ahead()|)
    ensures var spec := MarksOf(old(s.Ahead()), s.terminal, valid, marks, if old(s.Pending()) > 0 then 0 else line);
            && (j.End? ==> spec == Ok(marks))
            && (j.Refuse? ==> j.why.TooLarge? || spec == Refused(j.why))
            && (j.Take? ==> spec == MarksOf(s.Ahead(), s.terminal, valid, marks + [j.mark], if s.Pending() > 0 then 0 else j.line))
  {
    ghost var ahead, line0 := s.Ahead(), if s.Pending() > 0 then 0 else line;
    var seen := ReadLine(s, line);
    if !seen.ok {
      return if s.tooLong then Refuse(TooLarge) else End;
    }
    if total + seen.size > MAX_BODY {
      return Refuse(TooLarge);
    }
    var m := seen.mark;
    if m == [] {
      return End;
    }
    if |marks| == MAX_MARKS {
      return Refuse(TooMany);
    } else if !valid(m) {
      return Refuse(NotText(|marks| + 1));
    } else if s.terminal && seen.line >= TERMINAL_LINE {
      return Refuse(MayBeCut(|marks| + 1));
    }
    MarksTake(ahead, s.terminal, valid, marks, line0, First(ahead, s.terminal), s.Ahead());
    return Take(m, if seen.ended then 0 else seen.line, total + seen.size);
  }

  /**
   Reads marks until an empty line, a refusal or the end.  Whatever the reads: the result is that of
   the one-pass split of the input's bytes, unless a size limit was met; an input smaller than the
   limit does not meet it.
   */
  method ScanMarks(s: Scanner, valid: Bytes -> bool) returns (r: Result)
    requires s.Valid() && s.taken == s.drops == s.dropped == 0 && !s.dropLF && s.Ahead() == s.input
    modifies s
    ensures s.Valid()
    ensures r == Refused(TooLarge) || r == MarksOf(s.input, s.terminal, valid, [], 0)
    ensures |s.input| < MAX_BODY ==> r == MarksOf(s.input, s.terminal, valid, [], 0)
  {
    var marks: seq<Bytes> := [];
    var line: nat, total: nat := 0, 0;
    ghost var spec := MarksOf(s.input, s.terminal, valid, [], 0);
    while true
      invariant s.Valid() && s.dropped == 0 && total == s.taken + s.drops
      invariant spec == MarksOf(s.Ahead(), s.terminal, valid, marks, if s.Pending() > 0 then 0 else line)
      decreases |s.Ahead()|
    {
      var j := NextMark(s, valid, marks, line, total);
      match j
      case End => return Ok(marks);
      case Refuse(why) => return Refused(why);
      case Take(m, line', total') =>
        marks := marks + [m];
        line, total := line', total';
    }
  }
}
