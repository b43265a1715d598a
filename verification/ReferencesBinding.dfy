/**
 Binding one tree: references taken out of a canonical tree and put back by their bindings give the
 literal form, up to the order of mapping keys, in the tree and in its identified embedded documents.
 */
module ReferencesBinding {
  import opened Wrappers
  import opened PathSyntax
  import opened References
  import opened ReferencesTag
  import opened ReferencesMeaning
  import opened ReferencesLens

  /* ---- paths that rename no element ---- */

  /** Where a field stands among those that can name an element, the first being asked first. */
  function Rank(field: string): nat {
    if field == "name" then 0 else if field == "interface" then 1 else if field == "path" then 2 else 3
  }

  /** Setting the field does not rename an element that the step names. */
  predicate Harmless(s: Step, field: string) {
    field !in IDENTIFYING || Rank(s.selKey) < Rank(field)
  }

  /** A step as the walk writes it. */
  predicate Formed(s: Step) {
    if s.embedded != "" then s == Embed(s.embedded)
    else if IsElement(s) then s == Position(s.index) || s == Selector(s.selKey, s.selVal)
    else s == Key(s.key)
  }

  predicate IsKey(s: Step) {
    s == Key(s.key)
  }

  /** A path, from `at` on, that does not set what names an element on it. */
  predicate Unnaming(c: Case, doc: string, at: Path, path: Path)
    decreases |path|
  {
    path == [] ||
    (var s := path[0];
     && Formed(s)
     && (IsElement(s) ==> NamedPlainly(c, doc, at + [s]) && (|path| == 2 && IsKey(path[1]) ==> Harmless(s, path[1].key)))
     && Unnaming(c, doc, at + [s], path[1..]))
  }

  lemma {:induction false} FirstScalarNested(es: seq<Entry>, key: string, v: Node)
    requires !v.Scalar? && (FindKey(es, key) < |es| ==> !es[FindKey(es, key)].value.Scalar?)
    ensures var i := FindKey(es, key);
            FirstScalar(if i < |es| then es[i := Entry(key, v)] else es + [Entry(key, v)], key) == FirstScalar(es, key)
  {
    var i := FindKey(es, key);
    var es' := if i < |es| then es[i := Entry(key, v)] else es + [Entry(key, v)];
    if es == [] {
      assert es'[1..] == [];
    } else if i == 0 {
      assert es'[1..] == es[1..];
    } else {
      FirstScalarNested(es[1..], key, v);
      assert es'[1..] == if i < |es| then es[1..][i - 1 := Entry(key, v)] else es[1..] + [Entry(key, v)];
    }
  }

  /** What is set below a place that is no embedded document is no scalar before and after. */
  lemma SetBelow(c: Case, doc: string, child: Node, at: Path, rest: Path, v: Node)
    requires rest != [] && SetAt(c, doc, child, at, rest, v).Some? && EmbeddedAt(c, doc, at).None?
    ensures !child.Scalar? && !SetAt(c, doc, child, at, rest, v).value.Scalar?
  {
  }

  /** Setting below an element does not change the step that names it. */
  lemma StepUnchanged(c: Case, doc: string, item: Node, at: Path, rest: Path, v: Node, s: Step, i: nat)
    requires rest != [] && SetAt(c, doc, item, at, rest, v).Some? && NamedPlainly(c, doc, at)
    requires IsElement(s) && Formed(s) && Names(s, item, i) && Formed(rest[0])
    requires |rest| == 1 && IsKey(rest[0]) ==> Harmless(s, rest[0].key)
    ensures ElementStep(SetAt(c, doc, item, at, rest, v).value, i) == ElementStep(item, i)
  {
    if IsKey(rest[0]) {
      if rest[0].key !in IDENTIFYING {
        StepStays(c, doc, item, at, rest, v, i);
      } else {
        NamingFieldSet(c, doc, item, at, rest, v, s, i);
      }
    }
  }

  lemma NamingFieldSet(c: Case, doc: string, item: Node, at: Path, rest: Path, v: Node, s: Step, i: nat)
    requires rest != [] && SetAt(c, doc, item, at, rest, v).Some? && NamedPlainly(c, doc, at)
    requires IsElement(s) && Formed(s) && Names(s, item, i) && IsKey(rest[0]) && rest[0].key in IDENTIFYING
    requires |rest| == 1 ==> Harmless(s, rest[0].key)
    ensures ElementStep(SetAt(c, doc, item, at, rest, v).value, i) == ElementStep(item, i)
  {
    assert IDENTIFYING[0] == "name" && IDENTIFYING[1] == "interface" && IDENTIFYING[2] == "path";
    var key, es := rest[0].key, item.entries;
    var k := FindKey(es, key);
    var x := SetAt(c, doc, item, at, rest, v).value.entries[k].value;
    if key != "name" {
      FirstScalarSet(es, key, x, "name");
    }
    if key != "interface" {
      FirstScalarSet(es, key, x, "interface");
    }
    if key != "path" {
      FirstScalarSet(es, key, x, "path");
    }
    if |rest| > 1 {
      SetBelow(c, doc, if k < |es| then es[k].value else Mapping([]), at + [rest[0]], rest[1..], v);
      FirstScalarNested(es, key, x);
    }
  }

  /* ---- putting a value ---- */

  /** Puts `v` at a path, creating missing mapping keys.  The last step is a key. */
  function Put(d: Value, path: Path, v: Value): Option<Value>
    requires path != []
    decreases |path|
  {
    var s := path[0];
    if s.embedded != "" then
      if !d.Doc? || s != Embed(d.format) || |path| == 1 then None
      else
        var r := Put(d.root, path[1..], v);
        if r.None? then None else Some(Doc(d.format, r.value))
    else if IsElement(s) then
      if !d.List? || |path| == 1 then None
      else
        var i := FindElement(d.items, s, 0);
        if i == |d.items| || d.items[i].step != s then None
        else
          var r := Put(d.items[i].value, path[1..], v);
          if r.None? then None else Some(List(d.items[i := Element(s, r.value)]))
    else if !d.Dict? || s != Key(s.key) then None
    else if |path| == 1 then Some(Dict(d.fields[s.key := v]))
    else
      var r := Put(Child(d.fields, s.key), path[1..], v);
      if r.None? then None else Some(Dict(d.fields[s.key := r.value]))
  }

  /** Setting at a path is putting, up to key order. */
  lemma {:induction false} SetIsPut(c: Case, doc: string, n: Node, at: Path, path: Path, v: Node)
    requires Valid(c) && path != [] && Unnaming(c, doc, at, path) && SetReads(c, doc, n, at, path, v)
    requires Put(Norm(c, n, doc, at), path, Norm(c, v, doc, at + path)).Some?
    ensures SetAt(c, doc, n, at, path, v).Some?
    ensures Norm(c, SetAt(c, doc, n, at, path, v).value, doc, at) == Put(Norm(c, n, doc, at), path, Norm(c, v, doc, at + path)).value
    decreases |path|
  {
    var s, rest := path[0], path[1..];
    assert at + path == (at + [s]) + rest;
    if s.embedded != "" {
      SetInDoc(c, doc, n, at, path, v);
    } else if IsElement(s) {
      SetInList(c, doc, n, at, path, v);
    } else {
      var es := n.entries;
      var i := FindKey(es, s.key);
      NormChild(c, es, s.key, doc, at);
      if |path| == 1 {
        assert at + path == at + [s];
        NormSet(c, es, s.key, v, doc, at);
      } else {
        var child := if i < |es| then es[i].value else Mapping([]);
        SetIsPut(c, doc, child, at + [s], rest, v);
        NormSet(c, es, s.key, SetAt(c, doc, child, at + [s], rest, v).value, doc, at);
      }
    }
  }

  lemma {:induction false} SetInDoc(c: Case, doc: string, n: Node, at: Path, path: Path, v: Node)
    requires Valid(c) && path != [] && Unnaming(c, doc, at, path) && SetReads(c, doc, n, at, path, v) && path[0].embedded != ""
    requires at + path == (at + [path[0]]) + path[1..]
    requires Put(Norm(c, n, doc, at), path, Norm(c, v, doc, at + path)).Some?
    ensures SetAt(c, doc, n, at, path, v).Some?
    ensures Norm(c, SetAt(c, doc, n, at, path, v).value, doc, at) == Put(Norm(c, n, doc, at), path, Norm(c, v, doc, at + path)).value
    decreases |path|, 0
  {
    var s, rest := path[0], path[1..];
    var d := EmbeddedAt(c, doc, at).value;
    var tree := c.parse(n.value).value;
    SetIsPut(c, doc, tree, at + [s], rest, v);
    HostNorm(c, "!!str", SetAt(c, doc, tree, at + [s], rest, v).value, doc, at, d);
  }

  lemma {:induction false} SetInList(c: Case, doc: string, n: Node, at: Path, path: Path, v: Node)
    requires Valid(c) && path != [] && Unnaming(c, doc, at, path) && SetReads(c, doc, n, at, path, v) && IsElement(path[0])
    requires at + path == (at + [path[0]]) + path[1..]
    requires Put(Norm(c, n, doc, at), path, Norm(c, v, doc, at + path)).Some?
    ensures SetAt(c, doc, n, at, path, v).Some?
    ensures Norm(c, SetAt(c, doc, n, at, path, v).value, doc, at) == Put(Norm(c, n, doc, at), path, Norm(c, v, doc, at + path)).value
    decreases |path|, 0
  {
    var s, rest := path[0], path[1..];
    FindSame(c, n.items, s, doc, at);
    var i := FindItem(n.items, s, 0);
    NormItemsAt(c, n.items, 0, doc, at, i);
    SetIsPut(c, doc, n.items[i], at + [s], rest, v);
    var r := SetAt(c, doc, n.items[i], at + [s], rest, v).value;
    assert rest[0] == path[1];
    StepUnchanged(c, doc, n.items[i], at + [s], rest, v, s, i);
    NormItemSet(c, n.items, i, r, s, doc, at);
  }

  /* ---- bindings below a node ---- */

  datatype Bind = Bind(path: Path, ref: string)

  function Under(s: Step, binds: seq<Bind>): (r: seq<Bind>)
    ensures |r| == |binds|
    ensures forall k :: 0 <= k < |r| ==> r[k] == Bind([s] + binds[k].path, binds[k].ref)
  {
    seq(|binds|, k requires 0 <= k < |binds| => Bind([s] + binds[k].path, binds[k].ref))
  }

  /** The references below a node, in document order, with their paths from it. */
  function Binds(c: Case, n: Node, doc: string, p: Path): seq<Bind>
    requires Valid(c)
    decreases Left(c.embedded, |PathText(p)|), n
  {
    match n
    case Scalar(tag, value) =>
      var d := EmbeddedAt(c, doc, p);
      if tag == CANONICAL_TAG then [Bind([], value)]
      else if d.None? || c.parse(value).None? then []
      else
        EmbedLeft(c, doc, p);
        Under(Embed(d.value.format), Binds(c, c.parse(value).value, doc, p + [Embed(d.value.format)]))
    case Mapping(es) => BindsEntries(c, es, doc, p)
    case Sequence(items) => BindsItems(c, items, 0, doc, p)
  }

  function BindsEntries(c: Case, es: seq<Entry>, doc: string, p: Path): seq<Bind>
    requires Valid(c)
    decreases Left(c.embedded, |PathText(p)|), es
  {
    if es == [] then []
    else
      StepLeft(c, p, Key(es[0].key));
      Under(Key(es[0].key), Binds(c, es[0].value, doc, p + [Key(es[0].key)])) + BindsEntries(c, es[1..], doc, p)
  }

  function BindsItems(c: Case, items: seq<Node>, i: nat, doc: string, p: Path): seq<Bind>
    requires Valid(c)
    decreases Left(c.embedded, |PathText(p)|), items
  {
    if items == [] then []
    else
      var s := ElementStep(items[0], i);
      StepLeft(c, p, s);
      Under(s, Binds(c, items[0], doc, p + [s])) + BindsItems(c, items[1..], i + 1, doc, p)
  }

  /** Puts the values of references in order, below the path `p`. */
  function Apply(c: Case, d: Value, binds: seq<Bind>, values: Values, doc: string, p: Path): Option<Value>
    requires Valid(c)
    decreases |binds|
  {
    if binds == [] then Some(d)
    else if binds[0].ref !in values || binds[0].path == [] then None
    else
      var r := Put(d, binds[0].path, Norm(c, values[binds[0].ref], doc, p + binds[0].path));
      if r.None? then None else Apply(c, r.value, binds[1..], values, doc, p)
  }

  lemma {:induction false} ApplySum(c: Case, d: Value, a: seq<Bind>, b: seq<Bind>, values: Values, doc: string, p: Path)
    requires Valid(c) && Apply(c, d, a, values, doc, p).Some?
    ensures Apply(c, d, a + b, values, doc, p) == Apply(c, Apply(c, d, a, values, doc, p).value, b, values, doc, p)
    decreases |a|
  {
    if a == [] {
      assert a + b == b;
    } else {
      var ab := a + b;
      assert ab[0] == a[0] && ab[1..] == a[1..] + b;
      var r := Put(d, a[0].path, Norm(c, values[a[0].ref], doc, p + a[0].path)).value;
      ApplySum(c, r, a[1..], b, values, doc, p);
    }
  }

  /** The value of a step, to be put below, and the whole with another value there. */
  predicate Holds(d: Value, s: Step, inner: Value, r: Value, d': Value) {
    if s.embedded != "" then d == Doc(s.embedded, inner) && s == Embed(s.embedded) && d' == Doc(s.embedded, r)
    else if IsElement(s) then
      && d.List? && var i := FindElement(d.items, s, 0);
         i < |d.items| && d.items[i] == Element(s, inner) && d' == List(d.items[i := Element(s, r)])
    else d.Dict? && s == Key(s.key) && inner == Child(d.fields, s.key) && d' == Dict(d.fields[s.key := r])
  }

  lemma PutUnder(d: Value, s: Step, inner: Value, path: Path, v: Value, d': Value)
    requires path != [] && Put(inner, path, v).Some? && Holds(d, s, inner, Put(inner, path, v).value, d')
    ensures Put(d, [s] + path, v) == Some(d')
  {
    assert ([s] + path)[1..] == path;
  }

  lemma FindElementAgain(items: seq<Element>, s: Step, x: Element)
    requires FindElement(items, s, 0) < |items| && x.step == s
    ensures FindElement(items[FindElement(items, s, 0) := x], s, 0) == FindElement(items, s, 0)
  {
    var i := FindElement(items, s, 0);
    var items' := items[i := x];
    forall j | 0 <= j < i ensures items'[j] == items[j] {
    }
    assert items'[i].step == s;
  }

  /** Another value at the same step. */
  lemma HoldsAgain(d: Value, s: Step, inner: Value, r: Value, d1: Value, r': Value, d': Value)
    requires Holds(d, s, inner, r, d1) && Holds(d, s, inner, r', d')
    ensures Holds(d1, s, r, r', d')
  {
    if s.embedded == "" && IsElement(s) {
      var i := FindElement(d.items, s, 0);
      FindElementAgain(d.items, s, Element(s, r));
      assert d1.items[i := Element(s, r')] == d.items[i := Element(s, r')];
    } else if s.embedded == "" {
      assert d1.fields[s.key := r'] == d.fields[s.key := r'];
    }
  }

  function Whole(d: Value, s: Step, r: Value): Value {
    if s.embedded != "" then Doc(s.embedded, r)
    else if IsElement(s) then
      if d.List? && FindElement(d.items, s, 0) < |d.items| then List(d.items[FindElement(d.items, s, 0) := Element(s, r)]) else d
    else if d.Dict? then Dict(d.fields[s.key := r]) else d
  }

  /** Bindings below one step act on what is there alone. */
  lemma {:induction false} ApplyUnder(c: Case, d: Value, s: Step, inner: Value, binds: seq<Bind>, values: Values, doc: string, p: Path, d': Value)
    requires Valid(c) && binds != [] && Apply(c, inner, binds, values, doc, p + [s]).Some?
    requires Holds(d, s, inner, Apply(c, inner, binds, values, doc, p + [s]).value, d')
    ensures Apply(c, d, Under(s, binds), values, doc, p) == Some(d')
    decreases |binds|
  {
    var b := binds[0];
    var v := Norm(c, values[b.ref], doc, (p + [s]) + b.path);
    var r := Put(inner, b.path, v).value;
    var last := Apply(c, inner, binds, values, doc, p + [s]).value;
    assert p + ([s] + b.path) == (p + [s]) + b.path;
    var d1 := Whole(d, s, r);
    assert Holds(d, s, inner, r, d1);
    PutUnder(d, s, inner, b.path, v, d1);
    assert Under(s, binds)[1..] == Under(s, binds[1..]);
    if |binds| > 1 {
      HoldsAgain(d, s, inner, r, d1, last, d');
      ApplyUnder(c, d1, s, r, binds[1..], values, doc, p, d');
    } else {
      assert binds[1..] == [];
      assert last == r && d' == d1;
    }
  }

  /* ---- where bindings come from ---- */

  /** A binding of a mapping is one below a key. */
  lemma {:induction false} EntryOf(c: Case, es: seq<Entry>, doc: string, p: Path, k: nat) returns (j: nat, i: nat)
    requires Valid(c) && k < |BindsEntries(c, es, doc, p)|
    ensures j < |es| && i < |Binds(c, es[j].value, doc, p + [Key(es[j].key)])|
    ensures var b := Binds(c, es[j].value, doc, p + [Key(es[j].key)])[i];
            BindsEntries(c, es, doc, p)[k] == Bind([Key(es[j].key)] + b.path, b.ref)
    decreases es
  {
    var first := Under(Key(es[0].key), Binds(c, es[0].value, doc, p + [Key(es[0].key)]));
    if k < |first| {
      j, i := 0, k;
    } else {
      j, i := EntryOf(c, es[1..], doc, p, k - |first|);
      j := j + 1;
    }
  }

  /** A binding of a sequence is one below an element. */
  lemma {:induction false} ItemOf(c: Case, items: seq<Node>, n: nat, doc: string, p: Path, k: nat) returns (j: nat, i: nat)
    requires Valid(c) && k < |BindsItems(c, items, n, doc, p)|
    ensures j < |items| && i < |Binds(c, items[j], doc, p + [ElementStep(items[j], n + j)])|
    ensures var s := ElementStep(items[j], n + j);
            var b := Binds(c, items[j], doc, p + [s])[i];
            BindsItems(c, items, n, doc, p)[k] == Bind([s] + b.path, b.ref)
    decreases items
  {
    var s := ElementStep(items[0], n);
    var first := Under(s, Binds(c, items[0], doc, p + [s]));
    if k < |first| {
      j, i := 0, k;
    } else {
      j, i := ItemOf(c, items[1..], n + 1, doc, p, k - |first|);
      j := j + 1;
    }
  }

  /** Only a reference itself has an empty path. */
  lemma EmptyPath(c: Case, n: Node, doc: string, p: Path, k: nat)
    requires Valid(c) && k < |Binds(c, n, doc, p)| && Binds(c, n, doc, p)[k].path == []
    ensures IsRef(n)
  {
    if n.Mapping? {
      var j, i := EntryOf(c, n.entries, doc, p, k);
    } else if n.Sequence? {
      var j, i := ItemOf(c, n.items, 0, doc, p, k);
    }
  }

  /** A reference stands under the field. */
  predicate RefAt(n: Node, field: string) {
    n.Mapping? && exists k :: 0 <= k < |n.entries| && n.entries[k].key == field && IsRef(n.entries[k].value)
  }

  /** A mapping's binding of one step is a reference under that key. */
  lemma BindOfOne(c: Case, n: Node, doc: string, p: Path, key: string, k: nat)
    requires Valid(c) && key != "" && k < |Binds(c, n, doc, p)| && Binds(c, n, doc, p)[k].path == [Key(key)]
    ensures RefAt(n, key)
  {
    assert Binds(c, n, doc, p)[k].path[0] == Key(key);
    if n.Mapping? {
      var j, i := EntryOf(c, n.entries, doc, p, k);
      var s := Key(n.entries[j].key);
      var rest := Binds(c, n.entries[j].value, doc, p + [s])[i].path;
      assert rest == [] && s == Key(key) by {
        assert |[s] + rest| == 1 && ([s] + rest)[0] == s;
      }
      EmptyPath(c, n.entries[j].value, doc, p + [s], i);
    } else if n.Sequence? {
      var j, i := ItemOf(c, n.items, 0, doc, p, k);
    }
  }

  /* ---- canonical trees that can be bound ---- */

  /** No reference is below the node. */
  predicate Quiet(c: Case, n: Node, doc: string, p: Path)
    requires Valid(c)
  {
    Binds(c, n, doc, p) == []
  }

  /** The field that names an element, if any. */
  function NamingField(item: Node): string {
    ElementStep(item, 0).selKey
  }

  predicate NamedByRef(item: Node) {
    NamingField(item) != "" && RefAt(item, NamingField(item))
  }

  /** The step that names an element once its references are taken out. */
  function StrippedStep(c: Case, item: Node, i: nat, doc: string, p: Path): Step
    requires Valid(c)
  {
    var s := ElementStep(item, i);
    var v := Strip(c, item, doc, p + [s]);
    if v.Some? then ElementStep(v.value, i) else s
  }

  /** The element's names, before and after, are no other element's. */
  predicate Apart(c: Case, all: seq<Node>, k: nat, doc: string, p: Path)
    requires Valid(c) && k < |all|
  {
    forall j :: 0 <= j < |all| && j != k ==>
      && ElementStep(all[j], j) != ElementStep(all[k], k)
      && StrippedStep(c, all[j], j, doc, p) != ElementStep(all[k], k)
      && ElementStep(all[j], j) != StrippedStep(c, all[k], k, doc, p)
  }

  /** An embedded document without its references, and with their values, reads back. */
  predicate HostReads(c: Case, values: Values, tree: Node, format: string, doc: string, p: Path)
    requires Valid(c)
  {
    var stripped, literal := Strip(c, tree, doc, p), Walk(c, LiteralPass(values), tree, doc, p);
    && (stripped.Some? ==> ReadsBackAt(c, stripped.value, format, doc, p))
    && (literal.Some? ==> ReadsBackAt(c, literal.value.result, format, doc, p))
  }

  /**
   What is asked of a tree, where it has references: no mapping on the way has a key twice; embedded
   documents on the way read back; no element is named by an embedded document; and an element that a
   reference names has names of its own.
   */
  predicate Bindable(c: Case, values: Values, n: Node, doc: string, p: Path)
    requires Valid(c)
    decreases Left(c.embedded, |PathText(p)|), n
  {
    Quiet(c, n, doc, p) ||
    match n
    case Scalar(tag, value) =>
      tag == CANONICAL_TAG
      || (&& EmbeddedAt(c, doc, p).Some? && c.parse(value).Some?
          && var format, tree := EmbeddedAt(c, doc, p).value.format, c.parse(value).value;
          EmbedLeft(c, doc, p);
          HostReads(c, values, tree, format, doc, p + [Embed(format)]) && Bindable(c, values, tree, doc, p + [Embed(format)]))
    case Mapping(es) => Unique(es) && BindableEntries(c, values, es, doc, p)
    case Sequence(items) => BindableItems(c, values, items, doc, p)
  }

  predicate BindableEntries(c: Case, values: Values, es: seq<Entry>, doc: string, p: Path)
    requires Valid(c)
    decreases Left(c.embedded, |PathText(p)|), es
  {
    forall j :: 0 <= j < |es| ==>
      (StepLeft(c, p, Key(es[j].key)); Bindable(c, values, es[j].value, doc, p + [Key(es[j].key)]))
  }

  predicate BindableItems(c: Case, values: Values, items: seq<Node>, doc: string, p: Path)
    requires Valid(c)
    decreases Left(c.embedded, |PathText(p)|), items, 1
  {
    forall j :: 0 <= j < |items| ==> BindableItem(c, values, items, j, doc, p)
  }

  predicate BindableItem(c: Case, values: Values, items: seq<Node>, j: nat, doc: string, p: Path)
    requires Valid(c) && j < |items|
    decreases Left(c.embedded, |PathText(p)|), items, 0
  {
    var s := ElementStep(items[j], j);
    StepLeft(c, p, s);
    && NamedPlainly(c, doc, p + [s])
    && (!Quiet(c, items[j], doc, p + [s]) && NamedByRef(items[j]) ==> Apart(c, items, j, doc, p))
    && Bindable(c, values, items[j], doc, p + [s])
  }

  /* ---- bindings that find their places ---- */

  /** The element is the first that its step names, and is not named by a reference. */
  predicate Findable(all: seq<Node>, k: nat)
    requires k < |all|
  {
    !NamedByRef(all[k]) && FindItem(all, ElementStep(all[k], k), 0) == k
  }

  /**
   The bindings of a tree lead to where its references were: embedded documents with references are
   identified, and elements with references are the first of their name and not named by a reference.
   */
  predicate Reached(c: Case, n: Node, doc: string, p: Path)
    requires Valid(c)
    decreases Left(c.embedded, |PathText(p)|), n
  {
    Quiet(c, n, doc, p) ||
    match n
    case Scalar(tag, value) =>
      tag == CANONICAL_TAG
      || (&& EmbeddedAt(c, doc, p).Some? && EmbeddedAt(c, doc, p).value.identified && c.parse(value).Some?
          && (EmbedLeft(c, doc, p);
              Reached(c, c.parse(value).value, doc, p + [Embed(EmbeddedAt(c, doc, p).value.format)])))
    case Mapping(es) => ReachedEntries(c, es, doc, p)
    case Sequence(items) => ReachedItems(c, items, doc, p)
  }

  predicate ReachedEntries(c: Case, es: seq<Entry>, doc: string, p: Path)
    requires Valid(c)
    decreases Left(c.embedded, |PathText(p)|), es
  {
    forall j :: 0 <= j < |es| ==>
      (StepLeft(c, p, Key(es[j].key)); Reached(c, es[j].value, doc, p + [Key(es[j].key)]))
  }

  predicate ReachedItems(c: Case, items: seq<Node>, doc: string, p: Path)
    requires Valid(c)
    decreases Left(c.embedded, |PathText(p)|), items, 1
  {
    forall j :: 0 <= j < |items| ==> ReachedItem(c, items, j, doc, p)
  }

  predicate ReachedItem(c: Case, items: seq<Node>, j: nat, doc: string, p: Path)
    requires Valid(c) && j < |items|
    decreases Left(c.embedded, |PathText(p)|), items, 0
  {
    var s := ElementStep(items[j], j);
    StepLeft(c, p, s);
    Quiet(c, items[j], doc, p + [s]) || (Findable(items, j) && Reached(c, items[j], doc, p + [s]))
  }

  /* ---- what the walk finds ---- */

  /** The occurrences below the path `p` of a document. */
  function Absolute(doc: string, p: Path, binds: seq<Bind>): (r: seq<Occurrence>)
    ensures |r| == |binds|
    ensures forall k :: 0 <= k < |r| ==> r[k] == Occurrence(binds[k].ref, doc, p + binds[k].path)
  {
    seq(|binds|, k requires 0 <= k < |binds| => Occurrence(binds[k].ref, doc, p + binds[k].path))
  }

  lemma AbsoluteUnder(doc: string, p: Path, s: Step, binds: seq<Bind>)
    ensures Absolute(doc, p, Under(s, binds)) == Absolute(doc, p + [s], binds)
  {
    forall k | 0 <= k < |binds| ensures p + ([s] + binds[k].path) == (p + [s]) + binds[k].path {
    }
  }

  lemma AbsoluteSum(doc: string, p: Path, a: seq<Bind>, b: seq<Bind>)
    ensures Absolute(doc, p, a + b) == Absolute(doc, p, a) + Absolute(doc, p, b)
  {
  }

  /** The references the walk finds are the bindings. */
  lemma {:induction false} FoundAreBinds(c: Case, w: Pass, n: Node, doc: string, p: Path)
    requires Valid(c) && Canonical(w) && Walk(c, w, n, doc, p).Some?
    ensures Walk(c, w, n, doc, p).value.found == Absolute(doc, p, Binds(c, n, doc, p))
    decreases Left(c.embedded, |PathText(p)|), n
  {
    match n
    case Scalar(tag, value) =>
      var d := EmbeddedAt(c, doc, p);
      if tag == CANONICAL_TAG {
        assert p + [] == p;
      } else if d.Some? {
        EmbedLeft(c, doc, p);
        var inner := p + [Embed(d.value.format)];
        FoundAreBinds(c, w, c.parse(value).value, doc, inner);
        AbsoluteUnder(doc, p, Embed(d.value.format), Binds(c, c.parse(value).value, doc, inner));
      }
    case Mapping(es) => FoundAreBindsEntries(c, w, es, doc, p);
    case Sequence(items) => FoundAreBindsItems(c, w, items, 0, doc, p);
  }

  lemma {:induction false} FoundAreBindsEntries(c: Case, w: Pass, es: seq<Entry>, doc: string, p: Path)
    requires Valid(c) && Canonical(w) && WalkEntries(c, w, es, doc, p).Some?
    ensures WalkEntries(c, w, es, doc, p).value.found == Absolute(doc, p, BindsEntries(c, es, doc, p))
    decreases Left(c.embedded, |PathText(p)|), es
  {
    if es != [] {
      var s := Key(es[0].key);
      StepLeft(c, p, s);
      FoundAreBinds(c, w, es[0].value, doc, p + [s]);
      FoundAreBindsEntries(c, w, es[1..], doc, p);
      AbsoluteUnder(doc, p, s, Binds(c, es[0].value, doc, p + [s]));
      AbsoluteSum(doc, p, Under(s, Binds(c, es[0].value, doc, p + [s])), BindsEntries(c, es[1..], doc, p));
    }
  }

  lemma {:induction false} FoundAreBindsItems(c: Case, w: Pass, items: seq<Node>, i: nat, doc: string, p: Path)
    requires Valid(c) && Canonical(w) && WalkItems(c, w, items, i, doc, p).Some?
    ensures WalkItems(c, w, items, i, doc, p).value.found == Absolute(doc, p, BindsItems(c, items, i, doc, p))
    decreases Left(c.embedded, |PathText(p)|), items
  {
    if items != [] {
      var s := ElementStep(items[0], i);
      StepLeft(c, p, s);
      FoundAreBinds(c, w, items[0], doc, p + [s]);
      FoundAreBindsItems(c, w, items[1..], i + 1, doc, p);
      AbsoluteUnder(doc, p, s, Binds(c, items[0], doc, p + [s]));
      AbsoluteSum(doc, p, Under(s, Binds(c, items[0], doc, p + [s])), BindsItems(c, items[1..], i + 1, doc, p));
    }
  }

  /* ---- stripping a tree without references ---- */

  lemma {:induction false} StripNothing(c: Case, w: Pass, n: Node, doc: string, p: Path)
    requires Valid(c) && Canonical(w) && Walk(c, w, n, doc, p).Some? && Walk(c, w, n, doc, p).value.found == []
    ensures Strip(c, n, doc, p) == Some(Walk(c, w, n, doc, p).value.result)
    decreases Left(c.embedded, |PathText(p)|), n
  {
    match n
    case Scalar(tag, value) =>
      var d := EmbeddedAt(c, doc, p);
      if d.Some? {
        EmbedLeft(c, doc, p);
        StripNothing(c, w, c.parse(value).value, doc, p + [Embed(d.value.format)]);
      }
    case Mapping(es) => StripNoEntries(c, w, es, doc, p);
    case Sequence(items) => StripNoItems(c, w, items, 0, doc, p);
  }

  lemma {:induction false} StripNoEntries(c: Case, w: Pass, es: seq<Entry>, doc: string, p: Path)
    requires Valid(c) && Canonical(w) && WalkEntries(c, w, es, doc, p).Some? && WalkEntries(c, w, es, doc, p).value.found == []
    ensures StripEntries(c, es, doc, p) == Some(WalkEntries(c, w, es, doc, p).value.result)
    ensures |WalkEntries(c, w, es, doc, p).value.result| == |es|
    decreases Left(c.embedded, |PathText(p)|), es
  {
    if es != [] {
      var inner := p + [Key(es[0].key)];
      StepLeft(c, p, Key(es[0].key));
      StripNothing(c, w, es[0].value, doc, inner);
      StripNoEntries(c, w, es[1..], doc, p);
      if es[0].value.Mapping? {
        StripNoEntries(c, w, es[0].value.entries, doc, inner);
      }
    }
  }

  lemma {:induction false} StripNoItems(c: Case, w: Pass, items: seq<Node>, i: nat, doc: string, p: Path)
    requires Valid(c) && Canonical(w) && WalkItems(c, w, items, i, doc, p).Some? && WalkItems(c, w, items, i, doc, p).value.found == []
    ensures StripItems(c, items, i, doc, p) == Some(WalkItems(c, w, items, i, doc, p).value.result)
    decreases Left(c.embedded, |PathText(p)|), items
  {
    if items != [] {
      var s := ElementStep(items[0], i);
      StepLeft(c, p, s);
      StripNothing(c, w, items[0], doc, p + [s]);
      StripNoItems(c, w, items[1..], i + 1, doc, p);
    }
  }

  /** The literal form of a node, for a walk that succeeds. */
  function Literal(c: Case, values: Values, n: Node, doc: string, p: Path): Node
    requires Valid(c) && Walk(c, LiteralPass(values), n, doc, p).Some?
  {
    Walk(c, LiteralPass(values), n, doc, p).value.result
  }

  /** Without references a tree is stripped to its literal form, which is also its tag form. */
  lemma QuietForms(c: Case, values: Values, n: Node, doc: string, p: Path)
    requires Valid(c) && Quiet(c, n, doc, p) && Walk(c, LiteralPass(values), n, doc, p).Some?
    ensures Walk(c, TagPass(), n, doc, p).Some? && Walk(c, TagPass(), n, doc, p).value.found == []
    ensures Strip(c, n, doc, p) == Some(Literal(c, values, n, doc, p))
    ensures Walk(c, TagPass(), n, doc, p).value.result == Literal(c, values, n, doc, p)
  {
    FoundAreBinds(c, LiteralPass(values), n, doc, p);
    NothingToReplace(c, LiteralPass(values), TagPass(), n, doc, p);
    StripNothing(c, LiteralPass(values), n, doc, p);
  }

  /* ---- elements keep their names ---- */

  lemma FirstScalarFront(e: Entry, rest: seq<Entry>, field: string)
    ensures FirstScalar([e] + rest, field) == if e.key == field && e.value.Scalar? then Some(e.value.value) else FirstScalar(rest, field)
  {
    assert ([e] + rest)[1..] == rest;
  }

  /** Stripping and filling in keep a field that could name an element, where it holds no reference. */
  lemma {:induction false} FieldKept(c: Case, values: Values, es: seq<Entry>, doc: string, p: Path, field: string)
    requires Valid(c) && EmbeddedAt(c, doc, p + [Key(field)]).None? && WalkEntries(c, LiteralPass(values), es, doc, p).Some?
    requires StripEntries(c, es, doc, p).Some?
    requires forall k :: 0 <= k < |es| && es[k].key == field ==> !IsRef(es[k].value)
    ensures FirstScalar(StripEntries(c, es, doc, p).value, field) == FirstScalar(es, field)
    ensures FirstScalar(WalkEntries(c, LiteralPass(values), es, doc, p).value.result, field) == FirstScalar(es, field)
    decreases es
  {
    if es != [] {
      var key, v, rest := es[0].key, es[0].value, es[1..];
      FieldKept(c, values, rest, doc, p, field);
      var inner := p + [Key(key)];
      var lit, restL := Literal(c, values, v, doc, inner), WalkEntries(c, LiteralPass(values), rest, doc, p).value.result;
      FirstScalarFront(Entry(key, lit), restL, field);
      if !IsRef(v) {
        FirstScalarFront(Entry(key, Strip(c, v, doc, inner).value), StripEntries(c, rest, doc, p).value, field);
      }
    }
  }

  lemma {:induction false} ScalarFound(es: seq<Entry>, field: string, k: nat)
    requires k < |es| && es[k].key == field && es[k].value.Scalar?
    ensures FirstScalar(es, field).Some?
  {
    if k > 0 {
      ScalarFound(es[1..], field, k - 1);
    }
  }

  /** A reference under a field that is asked before the naming one would name the element. */
  lemma RefsComeAfter(item: Node, field: string)
    requires item.Mapping? && !NamedByRef(item) && field in IDENTIFYING && RefAt(item, field)
    ensures Rank(NamingField(item)) < Rank(field)
  {
    assert IDENTIFYING[0] == "name" && IDENTIFYING[1] == "interface" && IDENTIFYING[2] == "path";
    var k :| 0 <= k < |item.entries| && item.entries[k].key == field && IsRef(item.entries[k].value);
    ScalarFound(item.entries, field, k);
  }

  lemma ElementKept(c: Case, values: Values, item: Node, i: nat, doc: string, p: Path)
    requires Valid(c) && NamedPlainly(c, doc, p) && !NamedByRef(item) && !IsRef(item)
    requires Walk(c, LiteralPass(values), item, doc, p).Some? && Strip(c, item, doc, p).Some?
    ensures ElementStep(Strip(c, item, doc, p).value, i) == ElementStep(item, i)
    ensures ElementStep(Literal(c, values, item, doc, p), i) == ElementStep(item, i)
  {
    assert IDENTIFYING[0] == "name" && IDENTIFYING[1] == "interface" && IDENTIFYING[2] == "path";
    if item.Mapping? {
      var es := item.entries;
      forall field | field in IDENTIFYING && Rank(field) <= Rank(NamingField(item))
        ensures FirstScalar(StripEntries(c, es, doc, p).value, field) == FirstScalar(es, field)
        ensures FirstScalar(WalkEntries(c, LiteralPass(values), es, doc, p).value.result, field) == FirstScalar(es, field)
      {
        forall k | 0 <= k < |es| && es[k].key == field ensures !IsRef(es[k].value) {
          if IsRef(es[k].value) {
            assert RefAt(item, field);
            RefsComeAfter(item, field);
          }
        }
        FieldKept(c, values, es, doc, p, field);
      }
    }
  }

  /* ---- one node ---- */

  /** A node that is no reference: stripped, and bound again, it is its literal form. */
  lemma {:induction false} BindNode(c: Case, values: Values, n: Node, doc: string, p: Path)
    requires Valid(c) && Bindable(c, values, n, doc, p) && Reached(c, n, doc, p) && !IsRef(n) && Strip(c, n, doc, p).Some?
    requires Walk(c, LiteralPass(values), n, doc, p).Some?
    ensures Apply(c, Norm(c, Strip(c, n, doc, p).value, doc, p), Binds(c, n, doc, p), values, doc, p)
            == Some(Norm(c, Literal(c, values, n, doc, p), doc, p))
    ensures n.Mapping? ==> Strip(c, n, doc, p).value.Mapping?
    decreases Left(c.embedded, |PathText(p)|), n, 1
  {
    if Quiet(c, n, doc, p) {
      QuietForms(c, values, n, doc, p);
    } else {
      match n
      case Scalar(tag, value) => BindHost(c, values, n, doc, p);
      case Mapping(es) =>
        BindEntries(c, values, es, doc, p, map[]);
        NoOthers(NormEntries(c, StripEntries(c, es, doc, p).value, doc, p));
        NoOthers(NormEntries(c, WalkEntries(c, LiteralPass(values), es, doc, p).value.result, doc, p));
      case Sequence(items) =>
        BindItems(c, values, items, 0, [], doc, p);
        assert items[0..] == items;
        var s, l := NormItems(c, StripItems(c, items, 0, doc, p).value, 0, doc, p),
                    NormItems(c, WalkItems(c, LiteralPass(values), items, 0, doc, p).value.result, 0, doc, p);
        assert [] + s == s && [] + l == l;
    }
  }

  lemma NoOthers(fields: map<string, Value>)
    ensures map[] + fields == fields
  {
  }

  lemma {:induction false} BindHost(c: Case, values: Values, n: Node, doc: string, p: Path)
    requires Valid(c) && n.Scalar? && Bindable(c, values, n, doc, p) && Reached(c, n, doc, p) && !IsRef(n) && !Quiet(c, n, doc, p) && Strip(c, n, doc, p).Some?
    requires Walk(c, LiteralPass(values), n, doc, p).Some?
    ensures Apply(c, Norm(c, Strip(c, n, doc, p).value, doc, p), Binds(c, n, doc, p), values, doc, p)
            == Some(Norm(c, Literal(c, values, n, doc, p), doc, p))
    decreases Left(c.embedded, |PathText(p)|), n, 0
  {
    var d := EmbeddedAt(c, doc, p).value;
    var s := Embed(d.format);
    var tree, inner := c.parse(n.value).value, p + [s];
    EmbedLeft(c, doc, p);
    BindNode(c, values, tree, doc, inner);
    var stripped, lit := Strip(c, tree, doc, inner).value, Literal(c, values, tree, doc, inner);
    HostNorm(c, "!!str", stripped, doc, p, d);
    HostNorm(c, "!!str", lit, doc, p, d);
    ApplyUnder(c, Doc(d.format, Norm(c, stripped, doc, inner)), s, Norm(c, stripped, doc, inner), Binds(c, tree, doc, inner), values, doc, p,
               Doc(d.format, Norm(c, lit, doc, inner)));
  }

  /* ---- entries ---- */

  /** What is left of a child, when bound again, is its literal value. */
  ghost predicate Restores(c: Case, left: Option<Node>, child: Node, lit: Node, values: Values, doc: string, p: Path)
    requires Valid(c)
  {
    if left.Some? then
      !IsRef(child) && Apply(c, Norm(c, left.value, doc, p), Binds(c, child, doc, p), values, doc, p) == Some(Norm(c, lit, doc, p))
    else if IsRef(child) then child.value in values && lit == values[child.value]
    else Binds(c, child, doc, p) != [] && Apply(c, Dict(map[]), Binds(c, child, doc, p), values, doc, p) == Some(Norm(c, lit, doc, p))
  }

  /** The entries of a mapping, beside entries of other keys. */
  lemma {:induction false} BindEntries(c: Case, values: Values, es: seq<Entry>, doc: string, p: Path, others: map<string, Value>)
    requires Valid(c) && Unique(es) && BindableEntries(c, values, es, doc, p) && ReachedEntries(c, es, doc, p) && StripEntries(c, es, doc, p).Some?
    requires WalkEntries(c, LiteralPass(values), es, doc, p).Some? && others.Keys !! Keys(es)
    ensures Keys(StripEntries(c, es, doc, p).value) <= Keys(es)
    ensures Keys(WalkEntries(c, LiteralPass(values), es, doc, p).value.result) == Keys(es)
    ensures Apply(c, Dict(others + NormEntries(c, StripEntries(c, es, doc, p).value, doc, p)), BindsEntries(c, es, doc, p), values, doc, p)
            == Some(Dict(others + NormEntries(c, WalkEntries(c, LiteralPass(values), es, doc, p).value.result, doc, p)))
    decreases Left(c.embedded, |PathText(p)|), es, 1
  {
    if es != [] {
      var key, child, rest := es[0].key, es[0].value, es[1..];
      var inner := p + [Key(key)];
      StepLeft(c, p, Key(key));
      var litNode := Literal(c, values, child, doc, inner);
      RestKeys(es);
      BindEntries(c, values, rest, doc, p, others[key := Norm(c, litNode, doc, inner)]);
      StripFirst(c, values, es, doc, p);
      var kept, restS := StripEntries(c, es, doc, p).value, StripEntries(c, rest, doc, p).value;
      var restL := WalkEntries(c, LiteralPass(values), rest, doc, p).value.result;
      KeptKeys(kept, restS, key);
      KeptKeys([Entry(key, litNode)] + restL, restL, key);
      Combine(c, es[0], BindsEntries(c, rest, doc, p), kept, restS, litNode, restL, others, values, doc, p);
    }
  }

  lemma KeptKeys(kept: seq<Entry>, rest: seq<Entry>, key: string)
    requires kept == rest || (|kept| == |rest| + 1 && kept[0].key == key && kept[1..] == rest)
    ensures Keys(kept) <= Keys(rest) + {key}
    ensures kept != rest ==> Keys(kept) == Keys(rest) + {key}
  {
    if kept != rest {
      RestKeys(kept);
    }
  }

  /** How the first entry is stripped: dropped or kept, and ready to be bound again. */
  lemma {:induction false} StripFirst(c: Case, values: Values, es: seq<Entry>, doc: string, p: Path)
    requires Valid(c) && es != [] && BindableEntries(c, values, es, doc, p) && ReachedEntries(c, es, doc, p)
    requires WalkEntries(c, LiteralPass(values), es, doc, p).Some? && StripEntries(c, es, doc, p).Some?
    ensures var kept, rest, inner := StripEntries(c, es, doc, p).value, StripEntries(c, es[1..], doc, p).value, p + [Key(es[0].key)];
            var lit := Literal(c, values, es[0].value, doc, inner);
            || (kept == rest && Restores(c, None, es[0].value, lit, values, doc, inner))
            || (|kept| == |rest| + 1 && kept[0].key == es[0].key && kept[1..] == rest
                && Restores(c, Some(kept[0].value), es[0].value, lit, values, doc, inner))
    decreases Left(c.embedded, |PathText(p)|), es, 0
  {
    var child, inner := es[0].value, p + [Key(es[0].key)];
    StepLeft(c, p, Key(es[0].key));
    if !IsRef(child) {
      BindNode(c, values, child, doc, inner);
      var v := Strip(c, child, doc, inner).value;
      if Emptied(child, v) {
        EmptiedHasRefs(c, values, child, doc, inner);
      } else {
        var rest := StripEntries(c, es[1..], doc, p).value;
        assert ([Entry(es[0].key, v)] + rest)[1..] == rest;
      }
    }
  }

  /** A mapping that stripping empties holds references. */
  lemma EmptiedHasRefs(c: Case, values: Values, n: Node, doc: string, p: Path)
    requires Valid(c) && n.Mapping? && n.entries != [] && Walk(c, LiteralPass(values), n, doc, p).Some?
    requires Strip(c, n, doc, p) == Some(Mapping([]))
    ensures Binds(c, n, doc, p) != []
  {
    if Binds(c, n, doc, p) == [] {
      QuietForms(c, values, n, doc, p);
      StripNoEntries(c, LiteralPass(values), n.entries, doc, p);
    }
  }

  /** The first entry's bindings and then the others'. */
  lemma Combine(c: Case, e: Entry, restBinds: seq<Bind>, kept: seq<Entry>, restS: seq<Entry>, lit: Node, restL: seq<Entry>,
                others: map<string, Value>, values: Values, doc: string, p: Path)
    requires Valid(c) && e.key !in others && e.key !in Keys(restS) && e.key !in Keys(restL)
    requires var inner := p + [Key(e.key)];
             || (kept == restS && Restores(c, None, e.value, lit, values, doc, inner))
             || (|kept| == |restS| + 1 && kept[0].key == e.key && kept[1..] == restS
                 && Restores(c, Some(kept[0].value), e.value, lit, values, doc, inner))
    requires var v := Norm(c, lit, doc, p + [Key(e.key)]);
             Apply(c, Dict(others[e.key := v] + NormEntries(c, restS, doc, p)), restBinds, values, doc, p)
             == Some(Dict(others[e.key := v] + NormEntries(c, restL, doc, p)))
    ensures Apply(c, Dict(others + NormEntries(c, kept, doc, p)), Under(Key(e.key), Binds(c, e.value, doc, p + [Key(e.key)])) + restBinds, values, doc, p)
            == Some(Dict(others + NormEntries(c, [Entry(e.key, lit)] + restL, doc, p)))
  {
    var key, v := e.key, Norm(c, lit, doc, p + [Key(e.key)]);
    NormKeys(c, restS, doc, p);
    NormKeys(c, restL, doc, p);
    var left := if kept == restS then None else Some(kept[0].value);
    PutFirst(c, key, e.value, left, lit, others, NormEntries(c, restS, doc, p), values, doc, p);
    ApplySum(c, Dict(others + NormEntries(c, kept, doc, p)), Under(Key(key), Binds(c, e.value, doc, p + [Key(key)])), restBinds, values, doc, p);
    assert ([Entry(key, lit)] + restL)[1..] == restL;
    FieldBeside(others, NormEntries(c, restL, doc, p), key, v);
  }

  lemma FieldBeside(others: map<string, Value>, rest: map<string, Value>, key: string, v: Value)
    requires key !in rest
    ensures others[key := v] + rest == others + rest[key := v]
  {
  }

  /** The bindings below the first key put its literal value, and the other fields stay. */
  lemma PutFirst(c: Case, key: string, child: Node, left: Option<Node>, lit: Node, others: map<string, Value>,
                 rest: map<string, Value>, values: Values, doc: string, p: Path)
    requires Valid(c) && key !in others && key !in rest && Restores(c, left, child, lit, values, doc, p + [Key(key)])
    ensures var inner := p + [Key(key)];
            var fields := others + (if left.Some? then rest[key := Norm(c, left.value, doc, inner)] else rest);
            Apply(c, Dict(fields), Under(Key(key), Binds(c, child, doc, inner)), values, doc, p)
            == Some(Dict(others[key := Norm(c, lit, doc, inner)] + rest))
  {
    var inner := p + [Key(key)];
    var v := Norm(c, lit, doc, inner);
    var fields := others + (if left.Some? then rest[key := Norm(c, left.value, doc, inner)] else rest);
    assert fields[key := v] == others[key := v] + rest;
    var binds := Binds(c, child, doc, inner);
    if IsRef(child) {
      PutRef(c, fields, key, child.value, values, doc, p);
    } else if binds == [] {
      assert Under(Key(key), binds) == [];
      assert fields == others[key := v] + rest;
    } else {
      ApplyUnder(c, Dict(fields), Key(key), Child(fields, key), binds, values, doc, p, Dict(fields[key := v]));
    }
  }

  lemma PutRef(c: Case, fields: map<string, Value>, key: string, ref: string, values: Values, doc: string, p: Path)
    requires Valid(c) && ref in values
    ensures Apply(c, Dict(fields), Under(Key(key), [Bind([], ref)]), values, doc, p)
         == Some(Dict(fields[key := Norm(c, values[ref], doc, p + [Key(key)])]))
  {
    var b := Under(Key(key), [Bind([], ref)]);
    assert b[0].path == [Key(key)] + [] == [Key(key)];
    assert b[1..] == [];
  }

  /* ---- elements ---- */

  predicate StepsOf(done: seq<Element>, all: seq<Node>) {
    |done| <= |all| && forall j :: 0 <= j < |done| ==> done[j].step == ElementStep(all[j], j)
  }

  /** The elements of a sequence from `k` on, after those that are done. */
  lemma {:induction false} BindItems(c: Case, values: Values, all: seq<Node>, k: nat, done: seq<Element>, doc: string, p: Path)
    requires Valid(c) && k <= |all| && BindableItems(c, values, all, doc, p) && ReachedItems(c, all, doc, p) && StripItems(c, all[k..], k, doc, p).Some?
    requires WalkItems(c, LiteralPass(values), all[k..], k, doc, p).Some? && |done| == k && StepsOf(done, all)
    ensures Apply(c, List(done + NormItems(c, StripItems(c, all[k..], k, doc, p).value, k, doc, p)), BindsItems(c, all[k..], k, doc, p), values, doc, p)
            == Some(List(done + NormItems(c, WalkItems(c, LiteralPass(values), all[k..], k, doc, p).value.result, k, doc, p)))
    decreases Left(c.embedded, |PathText(p)|), all[k..], 1
  {
    if k < |all| {
      var s := ElementStep(all[k], k);
      var inner := p + [s];
      assert all[k..][1..] == all[k + 1..] && all[k..][0] == all[k];
      StepLeft(c, p, s);
      BindItem(c, values, all, k, doc, p);
      var stripped, lit := Strip(c, all[k], doc, inner).value, Literal(c, values, all[k], doc, inner);
      BindItems(c, values, all, k + 1, done + [Element(s, Norm(c, lit, doc, inner))], doc, p);
      var restS, restL := StripItems(c, all[k + 1..], k + 1, doc, p).value, WalkItems(c, LiteralPass(values), all[k + 1..], k + 1, doc, p).value.result;
      FrontNorm(c, stripped, restS, k, doc, p);
      FrontNorm(c, lit, restL, k, doc, p);
      ItemsCombine(c, values, all, k, done, Norm(c, stripped, doc, inner), Norm(c, lit, doc, inner),
                   NormItems(c, restS, k + 1, doc, p), NormItems(c, restL, k + 1, doc, p), BindsItems(c, all[k + 1..], k + 1, doc, p), doc, p);
    } else {
      assert all[k..] == [];
    }
  }

  /** The first element's bindings and then the others'. */
  lemma ItemsCombine(c: Case, values: Values, all: seq<Node>, k: nat, done: seq<Element>, was: Value, now: Value,
                     restS: seq<Element>, restL: seq<Element>, restBinds: seq<Bind>, doc: string, p: Path)
    requires Valid(c) && k < |all| && |done| == k && StepsOf(done, all)
    requires var s := ElementStep(all[k], k);
             && (Binds(c, all[k], doc, p + [s]) != [] ==> FindItem(all, s, 0) == k)
             && Apply(c, was, Binds(c, all[k], doc, p + [s]), values, doc, p + [s]) == Some(now)
             && Apply(c, List((done + [Element(s, now)]) + restS), restBinds, values, doc, p) == Some(List((done + [Element(s, now)]) + restL))
    ensures var s := ElementStep(all[k], k);
            Apply(c, List(done + ([Element(s, was)] + restS)), Under(s, Binds(c, all[k], doc, p + [s])) + restBinds, values, doc, p)
            == Some(List(done + ([Element(s, now)] + restL)))
  {
    var s := ElementStep(all[k], k);
    ItemApply(c, values, all, k, done, was, now, restS, doc, p);
    ApplySum(c, List(done + ([Element(s, was)] + restS)), Under(s, Binds(c, all[k], doc, p + [s])), restBinds, values, doc, p);
    assert done + ([Element(s, now)] + restL) == (done + [Element(s, now)]) + restL;
  }

  lemma FrontNorm(c: Case, n: Node, rest: seq<Node>, i: nat, doc: string, p: Path)
    requires Valid(c)
    ensures var s := ElementStep(n, i);
            NormItems(c, [n] + rest, i, doc, p) == [Element(s, Norm(c, n, doc, p + [s]))] + NormItems(c, rest, i + 1, doc, p)
  {
    assert ([n] + rest)[1..] == rest;
  }

  /** One element: its step stays, and its bindings restore its literal value. */
  lemma {:induction false} BindItem(c: Case, values: Values, all: seq<Node>, k: nat, doc: string, p: Path)
    requires Valid(c) && k < |all| && BindableItems(c, values, all, doc, p) && ReachedItems(c, all, doc, p)
    requires Walk(c, LiteralPass(values), all[k], doc, p + [ElementStep(all[k], k)]).Some? && Strip(c, all[k], doc, p + [ElementStep(all[k], k)]).Some?
    ensures var s := ElementStep(all[k], k);
            var inner := p + [s];
            && ElementStep(Strip(c, all[k], doc, inner).value, k) == s
            && ElementStep(Literal(c, values, all[k], doc, inner), k) == s
            && (Binds(c, all[k], doc, inner) != [] ==> FindItem(all, s, 0) == k)
            && Apply(c, Norm(c, Strip(c, all[k], doc, inner).value, doc, inner), Binds(c, all[k], doc, inner), values, doc, inner)
               == Some(Norm(c, Literal(c, values, all[k], doc, inner), doc, inner))
    decreases Left(c.embedded, |PathText(p)|), all[k..], 0
  {
    var item := all[k];
    assert BindableItem(c, values, all, k, doc, p) && ReachedItem(c, all, k, doc, p);
    var s := ElementStep(item, k);
    var inner := p + [s];
    assert all[k..][0] == item;
    StepLeft(c, p, s);
    if Quiet(c, item, doc, inner) {
      QuietForms(c, values, item, doc, inner);
      StepKept(c, item, k, doc, inner);
    } else {
      BindNode(c, values, item, doc, inner);
      ElementKept(c, values, item, k, doc, inner);
    }
  }

  lemma ItemApply(c: Case, values: Values, all: seq<Node>, k: nat, done: seq<Element>, was: Value, now: Value, rest: seq<Element>, doc: string, p: Path)
    requires Valid(c) && k < |all| && |done| == k && StepsOf(done, all)
    requires var s := ElementStep(all[k], k);
             && (Binds(c, all[k], doc, p + [s]) != [] ==> FindItem(all, s, 0) == k)
             && Apply(c, was, Binds(c, all[k], doc, p + [s]), values, doc, p + [s]) == Some(now)
    ensures var s := ElementStep(all[k], k);
            Apply(c, List(done + ([Element(s, was)] + rest)), Under(s, Binds(c, all[k], doc, p + [s])), values, doc, p)
            == Some(List((done + [Element(s, now)]) + rest))
  {
    var s := ElementStep(all[k], k);
    var items := done + ([Element(s, was)] + rest);
    var binds := Binds(c, all[k], doc, p + [s]);
    if binds == [] {
      assert Under(s, binds) == [];
      assert items == (done + [Element(s, now)]) + rest;
    } else {
      assert IsElement(s);
      forall j | 0 <= j < k ensures items[j].step != s && !(s.isIndex && s.index == j) {
        assert items[j] == done[j] && !Names(s, all[j], j);
      }
      assert items[k] == Element(s, was) && FindElement(items, s, 0) == k;
      assert items[k := Element(s, now)] == (done + [Element(s, now)]) + rest;
      ApplyUnder(c, List(items), s, was, binds, values, doc, p, List(items[k := Element(s, now)]));
    }
  }

  /* ---- the paths of bindings ---- */

  /** A binding below an element sets no field that names it, unless the element is named by a
      reference. */
  lemma {:induction false} ElementHarmless(c: Case, item: Node, j: nat, doc: string, p: Path, i: nat)
    requires Valid(c) && !NamedByRef(item) && i < |Binds(c, item, doc, p)|
    ensures var path := Binds(c, item, doc, p)[i].path;
            |path| == 1 && IsKey(path[0]) ==> Harmless(ElementStep(item, j), path[0].key)
  {
    var path := Binds(c, item, doc, p)[i].path;
    if |path| == 1 && IsKey(path[0]) && path[0].key in IDENTIFYING {
      var key := path[0].key;
      assert path == [Key(key)];
      BindOfOne(c, item, doc, p, key, i);
      RefsComeAfter(item, key);
    }
  }

  lemma {:induction false} UnnamingUnder(c: Case, doc: string, at: Path, s: Step, path: Path)
    requires Formed(s) && Unnaming(c, doc, at + [s], path)
    requires IsElement(s) ==> NamedPlainly(c, doc, at + [s]) && (|path| == 1 && IsKey(path[0]) ==> Harmless(s, path[0].key))
    ensures Unnaming(c, doc, at, [s] + path)
  {
    assert ([s] + path)[1..] == path;
  }

  /** The bindings of a tree that find their places rename no element. */
  lemma {:induction false} BindUnnaming(c: Case, values: Values, n: Node, doc: string, p: Path, k: nat)
    requires Valid(c) && Bindable(c, values, n, doc, p) && Reached(c, n, doc, p) && k < |Binds(c, n, doc, p)|
    ensures Unnaming(c, doc, p, Binds(c, n, doc, p)[k].path)
    decreases Left(c.embedded, |PathText(p)|), n
  {
    match n
    case Scalar(tag, value) =>
      if tag != CANONICAL_TAG {
        EmbedLeft(c, doc, p);
        var s := Embed(EmbeddedAt(c, doc, p).value.format);
        BindUnnaming(c, values, c.parse(value).value, doc, p + [s], k);
        UnnamingUnder(c, doc, p, s, Binds(c, c.parse(value).value, doc, p + [s])[k].path);
      }
    case Mapping(es) =>
      var j, i := EntryOf(c, es, doc, p, k);
      var s := Key(es[j].key);
      StepLeft(c, p, s);
      BindUnnaming(c, values, es[j].value, doc, p + [s], i);
      UnnamingUnder(c, doc, p, s, Binds(c, es[j].value, doc, p + [s])[i].path);
    case Sequence(items) => BindUnnamingItems(c, values, items, doc, p, k);
  }

  lemma {:induction false} BindUnnamingItems(c: Case, values: Values, items: seq<Node>, doc: string, p: Path, k: nat)
    requires Valid(c) && BindableItems(c, values, items, doc, p) && ReachedItems(c, items, doc, p) && k < |BindsItems(c, items, 0, doc, p)|
    ensures Unnaming(c, doc, p, BindsItems(c, items, 0, doc, p)[k].path)
    decreases Left(c.embedded, |PathText(p)|), items
  {
    var j, i := ItemOf(c, items, 0, doc, p, k);
    var s := ElementStep(items[j], j);
    StepLeft(c, p, s);
    assert BindableItem(c, values, items, j, doc, p) && ReachedItem(c, items, j, doc, p);
    BindUnnaming(c, values, items[j], doc, p + [s], i);
    UnnamingItem(c, items[j], j, i, doc, p);
  }

  lemma {:induction false} UnnamingItem(c: Case, item: Node, j: nat, i: nat, doc: string, p: Path)
    requires Valid(c) && !NamedByRef(item) && NamedPlainly(c, doc, p + [ElementStep(item, j)])
    requires i < |Binds(c, item, doc, p + [ElementStep(item, j)])|
    requires Unnaming(c, doc, p + [ElementStep(item, j)], Binds(c, item, doc, p + [ElementStep(item, j)])[i].path)
    ensures Unnaming(c, doc, p, [ElementStep(item, j)] + Binds(c, item, doc, p + [ElementStep(item, j)])[i].path)
  {
    var s := ElementStep(item, j);
    ElementHarmless(c, item, j, doc, p + [s], i);
    UnnamingUnder(c, doc, p, s, Binds(c, item, doc, p + [s])[i].path);
  }
}
