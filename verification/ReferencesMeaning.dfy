/** What the trees of a fragment mean, whatever the order of their mapping keys. */
module ReferencesMeaning {
  import opened Wrappers
  import opened PathSyntax
  import opened References

  /** What a tree at a path means: mappings without an order, sequence elements with the steps that
      name them, and identified embedded documents read. */
  datatype Value =
    | Leaf(tag: string, text: string)
    | Dict(fields: map<string, Value>)
    | List(items: seq<Element>)
    | Doc(format: string, root: Value)

  datatype Element = Element(step: Step, value: Value)

  function Norm(c: Case, n: Node, doc: string, p: Path): Value
    requires Valid(c)
    decreases Left(c.embedded, |PathText(p)|), n
  {
    match n
    case Scalar(tag, value) =>
      var d := EmbeddedAt(c, doc, p);
      if d.None? || !d.value.identified || c.parse(value).None? then Leaf(tag, value)
      else
        EmbedLeft(c, doc, p);
        Doc(d.value.format, Norm(c, c.parse(value).value, doc, p + [Embed(d.value.format)]))
    case Mapping(es) => Dict(NormEntries(c, es, doc, p))
    case Sequence(items) => List(NormItems(c, items, 0, doc, p))
  }

  function NormEntries(c: Case, es: seq<Entry>, doc: string, p: Path): map<string, Value>
    requires Valid(c)
    decreases Left(c.embedded, |PathText(p)|), es
  {
    if es == [] then map[]
    else
      StepLeft(c, p, Key(es[0].key));
      NormEntries(c, es[1..], doc, p)[es[0].key := Norm(c, es[0].value, doc, p + [Key(es[0].key)])]
  }

  function NormItems(c: Case, items: seq<Node>, i: nat, doc: string, p: Path): (r: seq<Element>)
    requires Valid(c)
    ensures |r| == |items|
    decreases Left(c.embedded, |PathText(p)|), items
  {
    if items == [] then []
    else
      var s := ElementStep(items[0], i);
      StepLeft(c, p, s);
      [Element(s, Norm(c, items[0], doc, p + [s]))] + NormItems(c, items[1..], i + 1, doc, p)
  }

  /** A tree can be written, and what is written reads back as the tree up to the order of keys. */
  predicate ReadsBackAt(c: Case, t: Node, format: string, doc: string, p: Path)
    requires Valid(c)
  {
    var text := c.encode(t, format);
    text.Some? && c.parse(text.value).Some? && Norm(c, c.parse(text.value).value, doc, p) == Norm(c, t, doc, p)
  }

  lemma HostNorm(c: Case, tag: string, t: Node, doc: string, p: Path, d: Decl)
    requires Valid(c) && EmbeddedAt(c, doc, p) == Some(d) && d.identified && ReadsBackAt(c, t, d.format, doc, p + [Embed(d.format)])
    ensures Norm(c, Scalar(tag, c.encode(t, d.format).value), doc, p) == Doc(d.format, Norm(c, t, doc, p + [Embed(d.format)]))
  {
  }

  function Keys(es: seq<Entry>): set<string> {
    set k | 0 <= k < |es| :: es[k].key
  }

  predicate Unique(es: seq<Entry>) {
    forall i, k :: 0 <= i < k < |es| ==> es[i].key != es[k].key
  }

  lemma RestKeys(es: seq<Entry>)
    requires es != []
    ensures Keys(es) == {es[0].key} + Keys(es[1..])
    ensures Unique(es) ==> es[0].key !in Keys(es[1..]) && Unique(es[1..])
  {
    forall x | x in Keys(es[1..]) ensures x in Keys(es) {
      var k :| 0 <= k < |es[1..]| && es[1..][k].key == x;
      assert es[k + 1].key == x;
    }
    forall x | x in Keys(es) && x != es[0].key ensures x in Keys(es[1..]) {
      var k :| 0 <= k < |es| && es[k].key == x;
      assert es[1..][k - 1].key == x;
    }
  }

  lemma {:induction false} NormKeys(c: Case, es: seq<Entry>, doc: string, p: Path)
    requires Valid(c)
    ensures NormEntries(c, es, doc, p).Keys == Keys(es)
    decreases es
  {
    if es != [] {
      NormKeys(c, es[1..], doc, p);
      RestKeys(es);
    }
  }

  lemma {:induction false} NormItemsAt(c: Case, items: seq<Node>, i: nat, doc: string, p: Path, k: nat)
    requires Valid(c) && k < |items|
    ensures var s := ElementStep(items[k], i + k);
            NormItems(c, items, i, doc, p)[k] == Element(s, Norm(c, items[k], doc, p + [s]))
    decreases items
  {
    if k > 0 {
      NormItemsAt(c, items[1..], i + 1, doc, p, k - 1);
    }
  }

  /* ---- entries and elements ---- */

  predicate IsElement(s: Step) {
    s.embedded == "" && (s.selKey != "" || s.isIndex)
  }

  /** The first element a step names, or the length. */
  function FindElement(items: seq<Element>, s: Step, i: nat): (k: nat)
    requires i <= |items|
    ensures i <= k <= |items|
    ensures k < |items| ==> items[k].step == s || (s.isIndex && s.index == k)
    ensures forall j :: i <= j < k ==> items[j].step != s && !(s.isIndex && s.index == j)
    decreases |items| - i
  {
    if i == |items| || items[i].step == s || (s.isIndex && s.index == i) then i else FindElement(items, s, i + 1)
  }

  function Child(fields: map<string, Value>, key: string): Value {
    if key in fields then fields[key] else Dict(map[])
  }

  lemma {:induction false} NormUpdate(c: Case, es: seq<Entry>, key: string, v: Node, doc: string, p: Path)
    requires Valid(c) && FindKey(es, key) < |es|
    ensures NormEntries(c, es[FindKey(es, key) := Entry(key, v)], doc, p)
         == NormEntries(c, es, doc, p)[key := Norm(c, v, doc, p + [Key(key)])]
    ensures key in NormEntries(c, es, doc, p)
    ensures NormEntries(c, es, doc, p)[key] == Norm(c, es[FindKey(es, key)].value, doc, p + [Key(key)])
    decreases es
  {
    var i := FindKey(es, key);
    var es' := es[i := Entry(key, v)];
    if i == 0 {
      assert es'[1..] == es[1..];
    } else {
      NormUpdate(c, es[1..], key, v, doc, p);
      assert es'[1..] == es[1..][i - 1 := Entry(key, v)];
    }
  }

  lemma {:induction false} NormAppend(c: Case, es: seq<Entry>, key: string, v: Node, doc: string, p: Path)
    requires Valid(c) && FindKey(es, key) == |es|
    ensures NormEntries(c, es + [Entry(key, v)], doc, p) == NormEntries(c, es, doc, p)[key := Norm(c, v, doc, p + [Key(key)])]
    ensures key !in NormEntries(c, es, doc, p)
    decreases es
  {
    var es' := es + [Entry(key, v)];
    if es == [] {
      assert es'[1..] == [];
    } else {
      NormAppend(c, es[1..], key, v, doc, p);
      assert es'[1..] == es[1..] + [Entry(key, v)];
    }
  }

  /** Setting under a key, or creating it, is the new field. */
  lemma NormSet(c: Case, es: seq<Entry>, key: string, v: Node, doc: string, p: Path)
    requires Valid(c)
    ensures var i := FindKey(es, key);
            var es' := if i < |es| then es[i := Entry(key, v)] else es + [Entry(key, v)];
            NormEntries(c, es', doc, p) == NormEntries(c, es, doc, p)[key := Norm(c, v, doc, p + [Key(key)])]
  {
    if FindKey(es, key) < |es| {
      NormUpdate(c, es, key, v, doc, p);
    } else {
      NormAppend(c, es, key, v, doc, p);
    }
  }

  lemma NormChild(c: Case, es: seq<Entry>, key: string, doc: string, p: Path)
    requires Valid(c)
    ensures var i := FindKey(es, key);
            Child(NormEntries(c, es, doc, p), key) == Norm(c, if i < |es| then es[i].value else Mapping([]), doc, p + [Key(key)])
  {
    if FindKey(es, key) < |es| {
      NormUpdate(c, es, key, Mapping([]), doc, p);
    } else {
      NormAppend(c, es, key, Mapping([]), doc, p);
    }
  }

  lemma NormItemSet(c: Case, items: seq<Node>, k: nat, r: Node, s: Step, doc: string, p: Path)
    requires Valid(c) && k < |items| && ElementStep(r, k) == s
    ensures NormItems(c, items[k := r], 0, doc, p) == NormItems(c, items, 0, doc, p)[k := Element(s, Norm(c, r, doc, p + [s]))]
  {
    var items' := items[k := r];
    forall j | 0 <= j < |items|
      ensures NormItems(c, items', 0, doc, p)[j] == NormItems(c, items, 0, doc, p)[k := Element(s, Norm(c, r, doc, p + [s]))][j]
    {
      NormItemsAt(c, items', 0, doc, p, j);
      NormItemsAt(c, items, 0, doc, p, j);
    }
  }

  lemma FindSame(c: Case, items: seq<Node>, s: Step, doc: string, p: Path)
    requires Valid(c)
    ensures FindElement(NormItems(c, items, 0, doc, p), s, 0) == FindItem(items, s, 0)
  {
    var es := NormItems(c, items, 0, doc, p);
    forall j | 0 <= j < |items| ensures (es[j].step == s || (s.isIndex && s.index == j)) == Names(s, items[j], j) {
      NormItemsAt(c, items, 0, doc, p, j);
    }
  }
}
