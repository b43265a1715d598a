/**
 The pager's wrapping of lines to the terminal's width, and its page on resize and paging keys.

 A line of text is the list of its characters as they are shown: the shown text, its width in cells,
 whether it is a combining mark shown as itself, and the escape it would show as instead.  A screen
 line is a list of shown items, so that where it was cut stays visible.
 */
module Pager {

  datatype Glyph = Glyph(text: string, width: nat, mark: bool, escape: string)

  /** What is shown of one glyph; `bare` for a mark shown as itself. */
  datatype Item = Item(text: string, width: nat, bare: bool)

  type Line = seq<Item>

  const MIN_ROWS := 2
  const MIN_COLS := 20

  function Width(line: Line): nat {
    if line == [] then 0 else Width(line[..|line| - 1]) + line[|line| - 1].width
  }

  lemma {:induction false} WidthSum(a: Line, b: Line)
    ensures Width(a + b) == Width(a) + Width(b)
    decreases |b|
  {
    if b == [] {
      assert a + b == a;
    } else {
      var n := |b| - 1;
      assert (a + b)[..|a| + n] == a + b[..n];
      WidthSum(a, b[..n]);
    }
  }

  function Flat(lines: seq<Line>): Line {
    if lines == [] then [] else Flat(lines[..|lines| - 1]) + lines[|lines| - 1]
  }

  /* ---- what is shown ---- */

  /** The width of the character at `i` and of what it joins: a mark adds to the character before. */
  function Run(glyphs: seq<Glyph>, i: nat): nat
    requires i < |glyphs|
  {
    glyphs[i].width + (if i == 0 || !glyphs[i].mark then 0 else Run(glyphs, i - 1))
  }

  /** A mark that its character's row has no room for is shown as an escape. */
  predicate Escaped(glyphs: seq<Glyph>, cols: nat, i: nat)
    requires i < |glyphs|
  {
    i > 0 && glyphs[i].mark && Run(glyphs, i) > cols
  }

  function Shown(glyphs: seq<Glyph>, cols: nat, i: nat): Item
    requires i < |glyphs|
  {
    var g := glyphs[i];
    if Escaped(glyphs, cols, i) then Item(g.escape, |g.escape|, false) else Item(g.text, g.width, g.mark)
  }

  function ShownTo(glyphs: seq<Glyph>, cols: nat, n: nat): (r: Line)
    requires n <= |glyphs|
    ensures |r| == n
    ensures forall i :: 0 <= i < n ==> r[i] == Shown(glyphs, cols, i)
  {
    seq(n, i requires 0 <= i < n => Shown(glyphs, cols, i))
  }

  /* ---- one line ---- */

  /** No single shown character is wider than a row. */
  predicate Narrow(glyphs: seq<Glyph>, cols: nat) {
    forall i :: 0 <= i < |glyphs| ==> glyphs[i].width <= cols && |glyphs[i].escape| <= cols
  }

  predicate AllFit(lines: seq<Line>, cols: nat) {
    forall k :: 0 <= k < |lines| ==> Width(lines[k]) <= cols
  }

  /** Screen lines after the first begin with a character or an escape. */
  predicate NoBareStart(lines: seq<Line>) {
    forall k :: 0 < k < |lines| ==> lines[k] != [] && !lines[k][0].bare
  }

  /** The variables of the wrapping loop: finished lines, the current line and its width, and the
      group that is never cut and its width. */
  datatype Wrapping = Wrapping(out: seq<Line>, b: Line, n: nat, group: Line, gw: nat)

  function Content(w: Wrapping): Line {
    Flat(w.out) + w.b + w.group
  }

  predicate Sound(w: Wrapping) {
    && w.n == Width(w.b) && w.gw == Width(w.group)
    && NoBareStart(w.out) && (w.out != [] ==> w.b != [] && !w.b[0].bare)
    && (w.b != [] && w.group != [] ==> !w.group[0].bare)
  }

  predicate Fit(w: Wrapping, cols: nat) {
    AllFit(w.out, cols) && Width(w.b) <= cols && Width(w.group) <= cols
  }

  /** Moves the group to the current line, or to a new one where it does not fit. */
  function Flush(w: Wrapping, cols: nat): Wrapping {
    if w.n > 0 && w.n + w.gw > cols then Wrapping(w.out + [w.b], w.group, w.gw, [], 0)
    else Wrapping(w.out, w.b + w.group, w.n + w.gw, [], 0)
  }

  lemma FlushKeeps(w: Wrapping, cols: nat)
    requires Sound(w) && w.group != []
    ensures Sound(Flush(w, cols)) && Content(Flush(w, cols)) == Content(w)
    ensures Fit(w, cols) ==> Fit(Flush(w, cols), cols)
    ensures Flush(w, cols).b != []
  {
    var out' := w.out + [w.b];
    assert out'[..|w.out|] == w.out;
    WidthSum(w.b, w.group);
  }

  /** Where the loop stands before glyph `i`. */
  predicate At(w: Wrapping, overflow: bool, glyphs: seq<Glyph>, cols: nat, i: nat)
    requires i <= |glyphs|
  {
    && Sound(w) && Content(w) == ShownTo(glyphs, cols, i)
    && (Narrow(glyphs, cols) ==> Fit(w, cols))
    && (i == 0 ==> w == Wrapping([], [], 0, [], 0) && !overflow)
    && (i > 0 ==> w.group != [] && (overflow <==> Escaped(glyphs, cols, i - 1)) && (!overflow ==> w.gw == Run(glyphs, i - 1)))
  }

  lemma ShownNext(glyphs: seq<Glyph>, cols: nat, i: nat)
    requires i < |glyphs|
    ensures ShownTo(glyphs, cols, i + 1) == ShownTo(glyphs, cols, i) + [Shown(glyphs, cols, i)]
  {
  }

  lemma WidthOne(item: Item)
    ensures Width([item]) == item.width
  {
    assert [item][..0] == [];
  }

  /** A mark joins the group. */
  lemma JoinKeeps(w: Wrapping, glyphs: seq<Glyph>, cols: nat, i: nat)
    requires i < |glyphs| && At(w, false, glyphs, cols, i)
    requires glyphs[i].mark && w.group != [] && w.gw + glyphs[i].width <= cols
    ensures At(w.(group := w.group + [Item(glyphs[i].text, glyphs[i].width, true)], gw := w.gw + glyphs[i].width), false, glyphs, cols, i + 1)
  {
    var item := Item(glyphs[i].text, glyphs[i].width, true);
    assert Run(glyphs, i) == glyphs[i].width + Run(glyphs, i - 1);
    assert Shown(glyphs, cols, i) == item;
    WidthSum(w.group, [item]);
    WidthOne(item);
    ShownNext(glyphs, cols, i);
    assert Flat(w.out) + w.b + (w.group + [item]) == Flat(w.out) + w.b + w.group + [item];
  }

  /** Anything else begins a group. */
  lemma StartKeeps(w: Wrapping, overflow: bool, glyphs: seq<Glyph>, cols: nat, i: nat)
    requires i < |glyphs| && At(w, overflow, glyphs, cols, i)
    requires glyphs[i].mark && w.group != [] ==> overflow || w.gw + glyphs[i].width > cols
    ensures At(Flush(w, cols).(group := [Shown(glyphs, cols, i)], gw := Shown(glyphs, cols, i).width), Escaped(glyphs, cols, i), glyphs, cols, i + 1)
    ensures Escaped(glyphs, cols, i) <==> glyphs[i].mark && w.group != []
  {
    var item := Shown(glyphs, cols, i);
    WidthOne(item);
    ShownNext(glyphs, cols, i);
    if i > 0 {
      FlushKeeps(w, cols);
      if glyphs[i].mark {
        assert Run(glyphs, i) == glyphs[i].width + Run(glyphs, i - 1);
      }
    }
    var f := Flush(w, cols);
    assert Flat(f.out) + f.b + [] == Flat(f.out) + f.b;
  }

  method WrapLine(glyphs: seq<Glyph>, cols: nat) returns (lines: seq<Line>)
    ensures lines != []
    ensures Flat(lines) == ShownTo(glyphs, cols, |glyphs|)
    ensures NoBareStart(lines)
    ensures Narrow(glyphs, cols) ==> AllFit(lines, cols)
  {
    var w := Wrapping([], [], 0, [], 0);
    var overflow := false;
    for i := 0 to |glyphs|
      invariant At(w, overflow, glyphs, cols, i)
    {
      var g := glyphs[i];
      ghost var before := overflow;
      if !g.mark {
        overflow := false;
      }
      if g.mark && w.group != [] {
        if !overflow && w.gw + g.width <= cols {
          JoinKeeps(w, glyphs, cols, i);
          w := w.(group := w.group + [Item(g.text, g.width, true)], gw := w.gw + g.width);
          continue;
        }
        overflow := true;
      }
      var item := Item(g.text, g.width, g.mark);
      if g.mark && overflow {
        item := Item(g.escape, |g.escape|, false);
      }
      StartKeeps(w, before, glyphs, cols, i);
      w := Flush(w, cols);
      w := w.(group := [item], gw := item.width);
    }
    Finish(w, overflow, glyphs, cols);
    w := Flush(w, cols);
    lines := w.out + [w.b];
  }

  lemma Finish(w: Wrapping, overflow: bool, glyphs: seq<Glyph>, cols: nat)
    requires At(w, overflow, glyphs, cols, |glyphs|)
    ensures var lines := Flush(w, cols).out + [Flush(w, cols).b];
            && Flat(lines) == ShownTo(glyphs, cols, |glyphs|) && NoBareStart(lines)
            && (Narrow(glyphs, cols) ==> AllFit(lines, cols))
  {
    if w.group != [] {
      FlushKeeps(w, cols);
    }
    var f := Flush(w, cols);
    var lines := f.out + [f.b];
    assert lines[..|f.out|] == f.out;
    assert Flat(f.out) + f.b + [] == Flat(f.out) + f.b;
  }

  /* ---- a text ---- */

  type Text = seq<seq<Glyph>>

  /** Each screen line knows its source line: the indices never fall and name every source line. */
  predicate SourcesOk(src: seq<nat>, n: nat) {
    && (forall i, k :: 0 <= i < k < |src| ==> src[i] <= src[k])
    && (forall k :: 0 <= k < |src| ==> src[k] < n)
    && (forall t :: 0 <= t < n ==> t in src)
  }

  /** The screen lines of one source line, in order. */
  function LinesOf(lines: seq<Line>, src: seq<nat>, t: nat): seq<Line>
    requires |lines| == |src|
  {
    if lines == [] then []
    else
      var n := |lines| - 1;
      LinesOf(lines[..n], src[..n], t) + (if src[n] == t then [lines[n]] else [])
  }

  /** One source line is shown whole, within the columns, and begins no further screen line with a
      bare mark. */
  predicate Shows(lines: seq<Line>, glyphs: seq<Glyph>, cols: nat) {
    && lines != [] && Flat(lines) == ShownTo(glyphs, cols, |glyphs|) && NoBareStart(lines)
    && (Narrow(glyphs, cols) ==> AllFit(lines, cols))
  }

  ghost predicate Wraps(lines: seq<Line>, src: seq<nat>, text: Text, cols: nat) {
    && |lines| == |src| && SourcesOk(src, |text|)
    && forall t :: 0 <= t < |text| ==> Shows(LinesOf(lines, src, t), text[t], cols)
  }

  lemma {:induction false} LinesOfSum(a: seq<Line>, s: seq<nat>, b: seq<Line>, t: nat, u: nat)
    requires |a| == |s|
    ensures LinesOf(a + b, s + seq(|b|, _ => t), u) == LinesOf(a, s, u) + (if t == u then b else [])
    decreases |b|
  {
    if b == [] {
      assert a + b == a && s + seq(|b|, _ => t) == s;
      assert LinesOf(a, s, u) + (if t == u then b else []) == LinesOf(a, s, u);
    } else {
      var n := |b| - 1;
      var more := seq(|b|, _ => t);
      LinesOfSum(a, s, b[..n], t, u);
      assert (a + b)[..|a| + n] == a + b[..n] && (s + more)[..|s| + n] == s + seq(n, _ => t);
      assert (a + b)[|a| + n] == b[n] && (s + more)[|s| + n] == t;
      assert t == u ==> LinesOf(a, s, u) + b[..n] + [b[n]] == LinesOf(a, s, u) + b by {
        assert b[..n] + [b[n]] == b;
      }
    }
  }

  lemma {:induction false} NoLinesYet(lines: seq<Line>, src: seq<nat>, t: nat)
    requires |lines| == |src| && t !in src
    ensures LinesOf(lines, src, t) == []
  {
    if lines != [] {
      var n := |lines| - 1;
      assert src[n] in src;
      NoLinesYet(lines[..n], src[..n], t);
    }
  }

  /** The screen lines of the source lines before `i`. */
  ghost predicate WrapsTo(lines: seq<Line>, src: seq<nat>, text: Text, cols: nat, i: nat)
    requires i <= |text|
  {
    && |lines| == |src| && SourcesOk(src, i)
    && forall t :: 0 <= t < i ==> Shows(LinesOf(lines, src, t), text[t], cols)
  }

  lemma WrapsNext(lines: seq<Line>, src: seq<nat>, more: seq<Line>, text: Text, cols: nat, i: nat)
    requires i < |text| && WrapsTo(lines, src, text, cols, i) && Shows(more, text[i], cols)
    ensures WrapsTo(lines + more, src + seq(|more|, _ => i), text, cols, i + 1)
  {
    var src' := src + seq(|more|, _ => i);
    assert src'[|src|] == i;
    forall t | 0 <= t < i ensures t in src' {
      assert t in src;
    }
    NoLinesYet(lines, src, i);
    forall t | 0 <= t < i + 1 ensures Shows(LinesOf(lines + more, src', t), text[t], cols) {
      LinesOfSum(lines, src, more, i, t);
      assert [] + more == more;
      assert t < i ==> LinesOf(lines, src, t) + [] == LinesOf(lines, src, t);
    }
  }

  method WrapSrc(text: Text, cols: nat) returns (lines: seq<Line>, src: seq<nat>)
    ensures Wraps(lines, src, text, cols)
  {
    lines, src := [], [];
    for i := 0 to |text|
      invariant WrapsTo(lines, src, text, cols, i)
    {
      var more := WrapLine(text[i], cols);
      WrapsNext(lines, src, more, text, cols, i);
      lines := lines + more;
      src := src + seq(|more|, _ => i);
    }
  }

  /* ---- the page ---- */

  function Min(a: int, b: int): int { if a < b then a else b }
  function Max(a: int, b: int): int { if a > b then a else b }

  /** The first place of `x`, or -1. */
  function IndexOf(src: seq<nat>, x: nat): (i: int)
    ensures -1 <= i < |src|
    ensures i >= 0 ==> src[i] == x && x !in src[..i]
    ensures i < 0 ==> x !in src
  {
    if src == [] then -1
    else if src[0] == x then 0
    else
      var r := IndexOf(src[1..], x);
      if r < 0 then -1
      else
        assert src[..r + 1] == [src[0]] + src[1..][..r];
        r + 1
  }

  datatype Input = Key(key: char) | Resize(rows: nat, cols: nat) | Signal

  datatype Exit = Quit | EndOfKeys | Signalled

  class Page {
    const text: Text
    var rows: nat
    var cols: nat
    var small: bool
    var lines: seq<Line>
    var src: seq<nat>
    var top: nat

    ghost predicate Valid()
      reads this
    {
      && Wraps(lines, src, text, cols)
      && rows >= 1 && (lines == [] ==> top == 0) && (lines != [] ==> top < |lines|)
    }

    /** The first source line on the page, when there is text. */
    ghost function Topmost(): (t: nat)
      requires Valid() && text != []
      reads this
      ensures t < |text|
    {
      assert 0 in src;
      src[top]
    }

    constructor (text: Text, rows: nat, cols: nat)
      ensures Valid() && this.text == text && top == 0
      ensures small <==> rows == 0 || cols == 0
      ensures !small ==> this.rows == rows && this.cols == cols
    {
      this.text := text;
      small := rows == 0 || cols == 0;
      var r, c := rows, cols;
      if rows == 0 || cols == 0 {
        r, c := MIN_ROWS, MIN_COLS;
      }
      var l, s := WrapSrc(text, c);
      this.rows, this.cols, lines, src, top := r, c, l, s, 0;
    }

    /** Fits the page to a new size.  The same source line stays at the top: with the same columns the
        page stays, with others it starts at that source line's first screen line. */
    method Resized(r: nat, c: nat)
      requires Valid()
      modifies this
      ensures Valid()
      ensures small <==> r == 0 || c == 0
      ensures small ==> rows == old(rows) && cols == old(cols) && lines == old(lines) && src == old(src) && top == old(top)
      ensures !small ==> rows == r && cols == c
      ensures text != [] ==> Topmost() == old(Topmost())
      ensures !small && c == old(cols) ==> lines == old(lines) && top == old(top)
      ensures !small && c != old(cols) && text != [] ==> Topmost() !in src[..top]
    {
      if r == 0 || c == 0 {
        small := true;
        return;
      }
      if c != cols {
        var first := 0;
        if top < |src| {
          first := src[top];
        }
        var l, s := WrapSrc(text, c);
        assert text != [] ==> first in s;
        lines, src, cols := l, s, c;
        top := Max(IndexOf(src, first), 0);
      }
      top := Min(top, Max(|lines| - 1, 0));
      rows, small := r, false;
    }

    /** The screen lines shown: up to one fewer than the rows. */
    function End(): nat
      reads this
    {
      Min(top + Max(rows - 1, 0), |lines|)
    }

    /** The page that `k` times forward from the start leads to. */
    ghost predicate OnPage(k: nat)
      requires Valid()
      reads this
    {
      top == TopAfter(|lines|, rows - 1, k)
    }

    method Forward()
      requires Valid()
      modifies this`top
      ensures Valid()
      ensures top == TopForward(|lines|, rows - 1, old(top))
      ensures forall k: nat :: old(OnPage(k)) ==> OnPage(k + 1)
    {
      var end := End();
      if end < |lines| {
        top := end;
      }
    }

    method Back()
      requires Valid()
      modifies this`top
      ensures Valid()
      ensures top == TopBack(rows - 1, old(top))
      ensures forall k: nat :: old(OnPage(k)) && k > 0 && k * (rows - 1) < |lines| ==> OnPage(k - 1)
    {
      forall k: nat | OnPage(k) && k > 0 && k * (rows - 1) < |lines|
        ensures TopBack(rows - 1, top) == TopAfter(|lines|, rows - 1, k - 1) {
        BackOfForward(|lines|, rows - 1, k);
      }
      top := Max(top - (rows - 1), 0);
    }

    /** The loop over keys and events.  What is on the page is at every point a wrapping of the whole
        text at the page's columns; while no paging key is pressed the source line at the top stays;
        and while the size stays the top moves as the keys say. */
    method PageOn(events: seq<Input>) returns (exit: Exit)
      requires Valid()
      modifies this
      ensures Valid()
      ensures text != [] && (forall k :: 0 <= k < |events| && events[k].Key? ==> events[k].key !in {' ', 'f', 'b'}) ==>
                Topmost() == old(Topmost())
      ensures exit == Leaves(events)
      ensures !old(small) && SameSize(events) ==>
                !small && rows == old(rows) && lines == old(lines)
                && top == Turns(|lines|, rows - 1, old(top), events[..Stop(events)])
    {
      assert events[..0] == [];
      for i := 0 to |events|
        invariant Valid() && i <= Stop(events)
        invariant text != [] && (forall k :: 0 <= k < i && events[k].Key? ==> events[k].key !in {' ', 'f', 'b'}) ==>
                    Topmost() == old(Topmost())
        invariant !old(small) && SameSize(events) ==>
                    !small && rows == old(rows) && lines == old(lines)
                    && top == Turns(|lines|, rows - 1, old(top), events[..i])
      {
        assert events[..i + 1][..i] == events[..i];
        match events[i]
        case Signal => return Signalled;
        case Resize(r, c) => Resized(r, c);
        case Key(key) =>
          if key == 'q' || key == INTERRUPT {
            return Quit;
          } else if !small && (key == ' ' || key == 'f') {
            Forward();
          } else if !small && key == 'b' {
            Back();
          }
      }
      return EndOfKeys;
    }
  }

  /* ---- keys ---- */

  const INTERRUPT := 3 as char

  /** The event ends the loop. */
  predicate Ends(event: Input) {
    event.Signal? || (event.Key? && (event.key == 'q' || event.key == INTERRUPT))
  }

  predicate SameSize(events: seq<Input>) {
    forall k :: 0 <= k < |events| ==> !events[k].Resize?
  }

  /** How many events the loop takes before the one that ends it. */
  function Stop(events: seq<Input>): (n: nat)
    ensures n <= |events| && (n < |events| ==> Ends(events[n]))
    ensures forall k :: 0 <= k < n ==> !Ends(events[k])
  {
    if events == [] || Ends(events[0]) then 0 else 1 + Stop(events[1..])
  }

  function Leaves(events: seq<Input>): Exit {
    var n := Stop(events);
    if n == |events| then EndOfKeys else if events[n].Signal? then Signalled else Quit
  }

  /** The top of `n` lines shown `body` at a time, a page on and a page back. */
  function TopForward(n: nat, body: nat, top: nat): nat {
    if top + body < n then top + body else top
  }

  function TopBack(body: nat, top: nat): nat {
    Max(top - body, 0)
  }

  function Turn(n: nat, body: nat, top: nat, event: Input): nat {
    if !event.Key? then top
    else if event.key == ' ' || event.key == 'f' then TopForward(n, body, top)
    else if event.key == 'b' then TopBack(body, top)
    else top
  }

  /** The top after some keys. */
  function Turns(n: nat, body: nat, top: nat, events: seq<Input>): nat {
    if events == [] then top
    else
      var last := |events| - 1;
      Turn(n, body, Turns(n, body, top, events[..last]), events[last])
  }

  /* ---- paging reaches every line ---- */

  /** The top of the page after `k` times forward from the start. */
  function TopAfter(n: nat, body: nat, k: nat): nat {
    if k == 0 then 0 else TopForward(n, body, TopAfter(n, body, k - 1))
  }

  lemma {:induction false} TopIs(n: nat, body: nat, k: nat)
    requires k * body < n
    ensures TopAfter(n, body, k) == k * body
  {
    if k > 0 {
      assert k * body == (k - 1) * body + body;
      TopIs(n, body, k - 1);
    }
  }

  lemma BackOfForward(n: nat, body: nat, k: nat)
    requires k > 0 && k * body < n
    ensures TopBack(body, TopAfter(n, body, k)) == TopAfter(n, body, k - 1)
  {
    assert k * body == (k - 1) * body + body;
    TopIs(n, body, k);
    TopIs(n, body, k - 1);
  }

  predicate AllForward(events: seq<Input>) {
    forall k :: 0 <= k < |events| ==> events[k] == Key(' ') || events[k] == Key('f')
  }

  lemma {:induction false} ForwardTurns(n: nat, body: nat, events: seq<Input>)
    requires AllForward(events)
    ensures Turns(n, body, 0, events) == TopAfter(n, body, |events|)
    decreases |events|
  {
    if events != [] {
      ForwardTurns(n, body, events[..|events| - 1]);
    }
  }

  /** From the start, as many page keys as whole pages lie before a screen line bring it on the page;
      and as many of them taken back lead to the start again, page by page. */
  lemma ForwardReachesAll(n: nat, body: nat, line: nat, events: seq<Input>)
    requires body > 0 && line < n && AllForward(events) && |events| == line / body
    ensures Stop(events) == |events| && SameSize(events)
    ensures Turns(n, body, 0, events) <= line < Turns(n, body, 0, events) + body
    ensures forall k :: 0 <= k <= |events| ==> Turns(n, body, 0, events + Backs(k)) == TopAfter(n, body, |events| - k)
  {
    var k := line / body;
    assert k * body <= line < k * body + body;
    ForwardTurns(n, body, events);
    TopIs(n, body, k);
    forall j | 0 <= j <= |events| ensures Turns(n, body, 0, events + Backs(j)) == TopAfter(n, body, |events| - j) {
      BackTurns(n, body, events, j);
    }
  }

  function Backs(k: nat): seq<Input> {
    seq(k, _ => Key('b'))
  }

  lemma {:induction false} BackTurns(n: nat, body: nat, events: seq<Input>, k: nat)
    requires AllForward(events) && |events| * body < n && k <= |events|
    ensures Turns(n, body, 0, events + Backs(k)) == TopAfter(n, body, |events| - k)
    decreases k
  {
    if k == 0 {
      ForwardTurns(n, body, events);
      assert events + Backs(0) == events;
    } else {
      BackTurns(n, body, events, k - 1);
      var all := events + Backs(k);
      assert all[..|all| - 1] == events + Backs(k - 1);
      FewerPages(body, |events| - k + 1, |events|);
      BackOfForward(n, body, |events| - k + 1);
    }
  }

  lemma FewerPages(body: nat, a: nat, b: nat)
    requires a <= b
    ensures a * body <= b * body
  {
  }
}
