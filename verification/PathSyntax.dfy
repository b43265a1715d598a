/** The text of a path into a machine configuration document, and its parser. */
module PathSyntax {
  import opened Wrappers
  import opened Text
  import opened Decimal

  /** The range of a machine integer. */
  predicate Fits64(n: int) {
    -0x8000_0000_0000_0000 <= n < 0x8000_0000_0000_0000
  }

  /** One step: a mapping key, a sequence element by field or by position, or the point where a
      string is parsed as an embedded document.  Fields a step does not use are empty. */
  datatype Step = Step(key: string, selKey: string, selVal: string, index: int, isIndex: bool, embedded: string)

  type Path = seq<Step>

  function Key(key: string): Step { Step(key, "", "", 0, false, "") }
  function Selector(field: string, value: string): Step { Step("", field, value, 0, false, "") }
  function Position(n: int): Step { Step("", "", "", n, true, "") }
  function Embed(format: string): Step { Step("", "", "", 0, false, format) }

  /* ---- numbers ---- */

  function FormatInt(n: int): string {
    if n < 0 then "-" + Dec(-n) else Dec(n)
  }

  function Digits(s: string): Option<nat> {
    if s != "" && AllDigits(s) then Some(Value(s)) else None
  }

  /** A decimal integer with an optional sign that fits in 64 bits. */
  function Atoi(s: string): Option<int> {
    var negative := s != "" && s[0] == '-';
    var n := Digits(if s != "" && (s[0] == '-' || s[0] == '+') then s[1..] else s);
    if n.None? then None
    else
      var v: int := if negative then 0 - n.value else n.value;
      if Fits64(v) then Some(v) else None
  }

  lemma AtoiFormat(n: int)
    requires Fits64(n)
    ensures Atoi(FormatInt(n)) == Some(n)
    ensures '=' !in FormatInt(n) && ']' !in FormatInt(n)
  {
    var m: nat := if n < 0 then -n else n;
    DecValue(m);
    var s := FormatInt(n);
    assert n < 0 ==> s[1..] == Dec(m);
    assert n >= 0 ==> IsDigit(s[0]);
    forall k | 0 <= k < |s| ensures s[k] != '=' && s[k] != ']' {
      if n < 0 && k > 0 {
        assert s[k] == Dec(m)[k - 1];
      }
    }
  }

  /* ---- printing ---- */

  function Piece(s: Step, first: bool): string {
    if s.embedded != "" then "|" + s.embedded
    else if s.isIndex then "[" + FormatInt(s.index) + "]"
    else if s.selKey != "" then "[" + s.selKey + "=" + s.selVal + "]"
    else (if first then "" else "/") + s.key
  }

  /** The text of the steps from `k` on. */
  function TextFrom(p: Path, k: nat): string
    requires k <= |p|
    decreases |p| - k
  {
    if k == |p| then "" else Piece(p[k], k == 0) + TextFrom(p, k + 1)
  }

  method Print(p: Path) returns (b: string)
    ensures b == TextFrom(p, 0)
  {
    b := "";
    for i := 0 to |p|
      invariant b + TextFrom(p, i) == TextFrom(p, 0)
    {
      var s := p[i];
      Associative(b, Piece(s, i == 0), TextFrom(p, i + 1));
      if s.embedded != "" {
        b := b + ("|" + s.embedded);
      } else if s.isIndex {
        b := b + ("[" + FormatInt(s.index) + "]");
      } else if s.selKey != "" {
        b := b + ("[" + s.selKey + "=" + s.selVal + "]");
      } else {
        var slash := if i > 0 then "/" else "";
        b := b + (slash + s.key);
      }
    }
  }

  /* ---- parsing ---- */

  /** The first place of `c` at or after `i`, or the length. */
  function Find(s: string, c: char, i: nat): (k: nat)
    requires i <= |s|
    ensures i <= k <= |s|
    ensures k < |s| ==> s[k] == c
    ensures forall j :: i <= j < k ==> s[j] != c
    decreases |s| - i
  {
    if i == |s| || s[i] == c then i else Find(s, c, i + 1)
  }

  predicate Special(c: char) {
    c == '/' || c == '[' || c == '|'
  }

  /** The end of a key or a format that begins at `i`. */
  function Stop(s: string, i: nat): (k: nat)
    requires i <= |s|
    ensures i <= k <= |s|
    ensures k < |s| ==> Special(s[k])
    ensures forall j :: i <= j < k ==> !Special(s[j])
    decreases |s| - i
  {
    if i == |s| || Special(s[i]) then i else Stop(s, i + 1)
  }

  function SelectorStep(sel: string): Option<Step> {
    var cut := Find(sel, '=', 0);
    if cut < |sel| then Some(Selector(sel[..cut], sel[cut + 1..]))
    else if Atoi(sel).Some? then Some(Position(Atoi(sel).value))
    else None
  }

  /** The step a text begins with and how long it is; a slash is no step. */
  function First(t: string): Option<(seq<Step>, nat)>
    requires t != ""
    ensures First(t).Some? ==> 0 < First(t).value.1 <= |t|
  {
    if t[0] == '/' then Some(([], 1))
    else if t[0] == '[' then
      var end := Find(t, ']', 0);
      if end == |t| then None
      else
        var s := SelectorStep(t[1..end]);
        if s.None? then None else Some(([s.value], end + 1))
    else if t[0] == '|' then
      var j := Stop(t, 1);
      if t[1..j] == "yaml" || t[1..j] == "json" then Some(([Embed(t[1..j])], j)) else None
    else
      var j := Stop(t, 0);
      Some(([Key(t[..j])], j))
  }

  function Parse(t: string): Option<Path> {
    if t == "" then Some([])
    else
      var f := First(t);
      if f.None? then None
      else
        var rest := Parse(t[f.value.1..]);
        if rest.None? then None else Some(f.value.0 + rest.value)
  }

  /** A path that holds no step is an error. */
  function Parsed(t: string): Option<Path> {
    if Parse(t).None? || Parse(t).value == [] then None else Parse(t)
  }

  method ParsePath(text: string) returns (r: Option<Path>)
    ensures r == Parsed(text)
  {
    var p: Path := [];
    var i := 0;
    assert text[0..] == text;
    AfterNothing(Parse(text));
    while i < |text|
      invariant i <= |text| && Parse(text) == After(p, Parse(text[i..]))
    {
      var t := text[i..];
      var f := First(t);
      AfterFirst(p, t);
      if f.None? {
        return None;
      }
      assert t[f.value.1..] == text[i + f.value.1..];
      p := p + f.value.0;
      i := i + f.value.1;
    }
    assert p + [] == p;
    if |p| == 0 {
      return None;
    }
    return Some(p);
  }

  function After(p: Path, rest: Option<Path>): Option<Path> {
    if rest.None? then None else Some(p + rest.value)
  }

  lemma AfterFirst(p: Path, t: string)
    requires t != ""
    ensures First(t).None? ==> After(p, Parse(t)).None?
    ensures First(t).Some? ==> After(p, Parse(t)) == After(p + First(t).value.0, Parse(t[First(t).value.1..]))
  {
    if First(t).Some? && Parse(t[First(t).value.1..]).Some? {
      Associative(p, First(t).value.0, Parse(t[First(t).value.1..]).value);
    }
  }

  lemma AfterNothing(rest: Option<Path>)
    ensures After([], rest) == rest
  {
    assert rest.Some? ==> [] + rest.value == rest.value;
  }

  /* ---- round trip ---- */

  predicate KeyText(s: string) {
    s != "" && forall k :: 0 <= k < |s| ==> !Special(s[k])
  }

  /** What the parser makes of a step: a selector may have an empty field here. */
  predicate Readable(s: Step) {
    || (s == Key(s.key) && KeyText(s.key))
    || (s == Selector(s.selKey, s.selVal) && '=' !in s.selKey && ']' !in s.selKey && ']' !in s.selVal)
    || (s == Position(s.index) && Fits64(s.index))
    || s == Embed("yaml") || s == Embed("json")
  }

  /** A readable step that is also printed as itself. */
  predicate Proper(s: Step) {
    Readable(s) && s != Selector("", s.selVal)
  }

  predicate WellFormed(p: Path) {
    p != [] && forall k :: 0 <= k < |p| ==> Proper(p[k])
  }

  lemma FindIs(s: string, c: char, k: nat)
    requires k < |s| && s[k] == c && forall j :: 0 <= j < k ==> s[j] != c
    ensures Find(s, c, 0) == k
  {
  }

  lemma FindNone(s: string, c: char)
    requires c !in s
    ensures Find(s, c, 0) == |s|
  {
  }

  /** A selector's text is read back as the selector. */
  lemma SelectorFirst(s: Step, rest: string)
    requires Proper(s) && (s == Position(s.index) || s == Selector(s.selKey, s.selVal))
    ensures First(Piece(s, true) + rest) == Some(([s], |Piece(s, true)|))
  {
    if s.isIndex {
      PositionStep(s.index);
      BracketFirst(FormatInt(s.index), rest);
    } else {
      FieldStep(s.selKey, s.selVal);
      var sel := s.selKey + "=" + s.selVal;
      assert Piece(s, true) == "[" + sel + "]";
      BracketFirst(sel, rest);
    }
  }

  lemma PositionStep(n: int)
    requires Fits64(n)
    ensures ']' !in FormatInt(n) && SelectorStep(FormatInt(n)) == Some(Position(n))
  {
    AtoiFormat(n);
    FindNone(FormatInt(n), '=');
  }

  lemma FieldStep(field: string, value: string)
    requires '=' !in field && ']' !in field && ']' !in value
    ensures ']' !in field + "=" + value && SelectorStep(field + "=" + value) == Some(Selector(field, value))
  {
    var sel := field + "=" + value;
    FindIs(sel, '=', |field|);
    assert sel[..|field|] == field && sel[|field| + 1..] == value;
  }

  lemma KeyPiece(key: string, rest: string)
    requires KeyText(key) && (rest == "" || Special(rest[0]))
    ensures Parse(key + rest) == After([Key(key)], Parse(rest))
  {
    KeyFirst(key, rest);
    ParseFirst(key, rest, [Key(key)]);
  }

  /** A slash adds no step. */
  lemma SlashFirst(rest: string)
    ensures Parse("/" + rest) == Parse(rest)
  {
    ParseFirst("/", rest, []);
    AfterNothing(Parse(rest));
  }

  lemma KeyCase(s: Step, first: bool, rest: string)
    requires s == Key(s.key) && KeyText(s.key) && (rest == "" || Special(rest[0]))
    ensures Parse(Piece(s, first) + rest) == After([s], Parse(rest))
  {
    KeyPiece(s.key, rest);
    SlashFirst(s.key + rest);
    PieceOfKey(s, first, rest);
  }

  lemma PieceOfKey(s: Step, first: bool, rest: string)
    requires s == Key(s.key)
    ensures Piece(s, first) + rest == if first then s.key + rest else "/" + (s.key + rest)
  {
  }

  lemma NothingCase(s: Step, first: bool, rest: string)
    requires s == Selector("", s.selVal)
    ensures Parse(Piece(s, first) + rest) == After([], Parse(rest))
  {
    AfterNothing(Parse(rest));
    if first {
      assert Piece(s, first) + rest == rest;
    } else {
      SlashFirst(rest);
      assert Piece(s, first) == "/";
    }
  }

  lemma EmbedCase(s: Step, first: bool, rest: string)
    requires (s == Embed("yaml") || s == Embed("json")) && (rest == "" || Special(rest[0]))
    ensures Parse(Piece(s, first) + rest) == After([s], Parse(rest))
  {
    EmbedFirst(s.embedded, rest);
    ParseFirst("|" + s.embedded, rest, [s]);
  }

  lemma SelectorCase(s: Step, first: bool, rest: string)
    requires Proper(s) && (s == Position(s.index) || s == Selector(s.selKey, s.selVal))
    ensures Parse(Piece(s, first) + rest) == After([s], Parse(rest))
  {
    SelectorFirst(s, rest);
    ParseFirst(Piece(s, true), rest, [s]);
    assert Piece(s, first) == Piece(s, true);
  }

  /** A readable step's text adds that step to what follows, or nothing if it is not proper. */
  lemma ParsePiece(s: Step, first: bool, rest: string)
    requires Readable(s) && (rest == "" || Special(rest[0]))
    ensures Parse(Piece(s, first) + rest) == After(if Proper(s) then [s] else [], Parse(rest))
  {
    if s.key != "" {
      KeyCase(s, first, rest);
    } else if s.embedded != "" {
      EmbedCase(s, first, rest);
    } else if Proper(s) {
      SelectorCase(s, first, rest);
    } else {
      NothingCase(s, first, rest);
    }
  }

  lemma StopIs(s: string, i: nat, k: nat)
    requires i <= k <= |s| && (k < |s| ==> Special(s[k])) && forall j :: i <= j < k ==> !Special(s[j])
    ensures Stop(s, i) == k
  {
  }

  lemma KeyFirst(key: string, rest: string)
    requires KeyText(key) && (rest == "" || Special(rest[0]))
    ensures First(key + rest) == Some(([Key(key)], |key|))
  {
    var t := key + rest;
    assert forall j :: 0 <= j < |key| ==> t[j] == key[j];
    assert t[..|key|] == key && t[0] == key[0];
    StopIs(t, 0, |key|);
  }

  lemma EmbedFirst(format: string, rest: string)
    requires format == "yaml" || format == "json"
    requires rest == "" || Special(rest[0])
    ensures First("|" + format + rest) == Some(([Embed(format)], |format| + 1))
  {
    var t := "|" + format + rest;
    assert t[1..5] == format;
    assert Stop(t, 1) == 5 by {
      assert t[1] == format[0] && t[2] == format[1] && t[3] == format[2] && t[4] == format[3];
    }
  }

  lemma BracketFirst(sel: string, rest: string)
    requires ']' !in sel && SelectorStep(sel).Some?
    ensures First("[" + sel + "]" + rest) == Some(([SelectorStep(sel).value], |sel| + 2))
  {
    var t := "[" + sel + "]" + rest;
    forall j | 0 <= j < |sel| + 1 ensures t[j] != ']' {
      if j > 0 {
        assert t[j] == sel[j - 1];
        assert sel[j - 1] in sel;
      }
    }
    FindIs(t, ']', |sel| + 1);
    assert t[1..|sel| + 1] == sel;
  }

  lemma ParseFirst(u: string, rest: string, steps: seq<Step>)
    requires u + rest != "" && First(u + rest) == Some((steps, |u|))
    ensures Parse(u + rest) == After(steps, Parse(rest))
  {
    assert (u + rest)[|u|..] == rest;
  }

  /** The steps that are printed as themselves. */
  function Kept(p: Path, k: nat): (r: Path)
    requires k <= |p|
    ensures |r| <= |p| - k
    decreases |p| - k
  {
    if k == |p| then [] else (if Proper(p[k]) then [p[k]] else []) + Kept(p, k + 1)
  }

  lemma TextFromSpecial(p: Path, k: nat)
    requires 0 < k <= |p|
    ensures TextFrom(p, k) == "" || Special(TextFrom(p, k)[0])
  {
  }

  lemma ParseOne(s: Step, first: bool, rest: string, kept: Path)
    requires Readable(s) && (rest == "" || Special(rest[0])) && Parse(rest) == Some(kept)
    ensures Parse(Piece(s, first) + rest) == Some((if Proper(s) then [s] else []) + kept)
  {
    ParsePiece(s, first, rest);
  }

  /** Of a path of readable steps the parser gives back the ones that are printed as themselves. */
  lemma {:induction false} ParseText(p: Path, k: nat)
    requires k <= |p| && forall j :: k <= j < |p| ==> Readable(p[j])
    ensures Parse(TextFrom(p, k)) == Some(Kept(p, k))
    decreases |p| - k
  {
    if k < |p| {
      ParseText(p, k + 1);
      TextFromSpecial(p, k + 1);
      ParseOne(p[k], k == 0, TextFrom(p, k + 1), Kept(p, k + 1));
    }
  }

  lemma {:induction false} KeptAll(p: Path, k: nat)
    requires k <= |p|
    ensures Kept(p, k) == p[k..] <==> forall j :: k <= j < |p| ==> Proper(p[j])
    decreases |p| - k
  {
    if k < |p| {
      KeptAll(p, k + 1);
      assert p[k..] == [p[k]] + p[k + 1..];
      if Proper(p[k]) {
        assert Kept(p, k)[1..] == Kept(p, k + 1) && p[k..][1..] == p[k + 1..];
      } else {
        assert |Kept(p, k)| < |p[k..]|;
      }
    }
  }

  /** Whatever text it reads, the parser makes readable steps. */
  lemma FirstReadable(t: string)
    requires t != "" && First(t).Some?
    ensures forall k :: 0 <= k < |First(t).value.0| ==> Readable(First(t).value.0[k])
  {
    if t[0] == '[' {
      var end := Find(t, ']', 0);
      var sel := t[1..end];
      forall j | 0 <= j < |sel| ensures sel[j] != ']' {
        assert sel[j] == t[j + 1];
      }
    } else if t[0] != '/' && t[0] != '|' {
      var j := Stop(t, 0);
      assert forall i :: 0 <= i < j ==> t[..j][i] == t[i];
    }
  }

  lemma {:induction false} ParseReadable(t: string)
    requires Parse(t).Some?
    ensures forall k :: 0 <= k < |Parse(t).value| ==> Readable(Parse(t).value[k])
    decreases |t|
  {
    if t != "" {
      FirstReadable(t);
      ParseReadable(t[First(t).value.1..]);
    }
  }

  /**
   Printing a path and parsing the text gives the path back exactly for the well-formed paths: at
   least one step; keys not empty and without '/', '[' and '|'; selector fields not empty and
   without '=' and ']'; selector values without ']'; positions of 64 bits; formats yaml and json; unused
   fields empty.
   */
  lemma RoundTrip(p: Path)
    ensures Parsed(TextFrom(p, 0)) == Some(p) <==> WellFormed(p)
  {
    if Parsed(TextFrom(p, 0)) == Some(p) {
      ParseReadable(TextFrom(p, 0));
    }
    if forall j :: 0 <= j < |p| ==> Readable(p[j]) {
      ParseText(p, 0);
      KeptAll(p, 0);
      assert p[0..] == p;
    }
  }

  /** So well-formed paths have different texts. */
  lemma TextInjective(p: Path, q: Path)
    requires WellFormed(p) && WellFormed(q) && TextFrom(p, 0) == TextFrom(q, 0)
    ensures p == q
  {
    RoundTrip(p);
    RoundTrip(q);
  }
}
