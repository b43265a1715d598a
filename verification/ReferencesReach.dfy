/**
 Bindings that do not find their places.

 A run of a tree's bindings is followed through its states: an element with references that its
 bindings do not lead to is never changed, so the run fails or ends in a tree that is not the literal
 form.
 */
module ReferencesReach {
  import opened Wrappers
  import opened PathSyntax
  import opened References
  import opened ReferencesTag
  import opened ReferencesMeaning
  import opened ReferencesLens
  import opened ReferencesBinding

  /* ---- children of the stripped and of the literal form ---- */

  lemma {:induction false} StripKeys(c: Case, es: seq<Entry>, doc: string, p: Path)
    requires Valid(c) && StripEntries(c, es, doc, p).Some?
    ensures Keys(StripEntries(c, es, doc, p).value) <= Keys(es)
    decreases es
  {
    if es != [] {
      StripKeys(c, es[1..], doc, p);
      RestKeys(es);
      var kept, rest := StripEntries(c, es, doc, p).value, StripEntries(c, es[1..], doc, p).value;
      if kept != rest {
        assert kept[1..] == rest;
        RestKeys(kept);
      }
    }
  }

  /** What is left of an entry: nothing of a reference, and the stripped value of any other. */
  lemma {:induction false} StripChild(c: Case, es: seq<Entry>, doc: string, p: Path, j: nat)
    requires Valid(c) && Unique(es) && StripEntries(c, es, doc, p).Some? && j < |es|
    ensures var fields, inner := NormEntries(c, StripEntries(c, es, doc, p).value, doc, p), p + [Key(es[j].key)];
            if IsRef(es[j].value) then es[j].key !in fields
            else
              && Strip(c, es[j].value, doc, inner).Some?
              && Child(fields, es[j].key) == Norm(c, Strip(c, es[j].value, doc, inner).value, doc, inner)
    decreases es
  {
    RestKeys(es);
    var kept, rest := StripEntries(c, es, doc, p).value, StripEntries(c, es[1..], doc, p).value;
    StripKeys(c, es[1..], doc, p);
    NormKeys(c, rest, doc, p);
    if kept != rest {
      assert kept[1..] == rest;
    }
    if j > 0 {
      StripChild(c, es[1..], doc, p, j - 1);
      assert es[j].key in Keys(es[1..]) by {
        assert es[1..][j - 1].key == es[j].key;
      }
    }
  }

  lemma {:induction false} LiteralChild(c: Case, values: Values, es: seq<Entry>, doc: string, p: Path, j: nat)
    requires Valid(c) && Unique(es) && WalkEntries(c, LiteralPass(values), es, doc, p).Some? && j < |es|
    ensures var fields, inner := NormEntries(c, WalkEntries(c, LiteralPass(values), es, doc, p).value.result, doc, p), p + [Key(es[j].key)];
            && Walk(c, LiteralPass(values), es[j].value, doc, inner).Some?
            && es[j].key in fields && fields[es[j].key] == Norm(c, Literal(c, values, es[j].value, doc, inner), doc, inner)
    decreases es
  {
    RestKeys(es);
    var all, rest := WalkEntries(c, LiteralPass(values), es, doc, p).value.result, WalkEntries(c, LiteralPass(values), es[1..], doc, p).value.result;
    assert all[1..] == rest;
    if j > 0 {
      LiteralChild(c, values, es[1..], doc, p, j - 1);
      assert es[j].key in Keys(es[1..]) by {
        assert es[1..][j - 1].key == es[j].key;
      }
    }
  }

  lemma {:induction false} StripItemAt(c: Case, items: seq<Node>, n: nat, doc: string, p: Path, j: nat)
    requires Valid(c) && StripItems(c, items, n, doc, p).Some? && j < |items|
    ensures var inner := p + [ElementStep(items[j], n + j)];
            && |StripItems(c, items, n, doc, p).value| == |items| && Strip(c, items[j], doc, inner).Some?
            && StripItems(c, items, n, doc, p).value[j] == Strip(c, items[j], doc, inner).value
    decreases items
  {
    if j > 0 {
      StripItemAt(c, items[1..], n + 1, doc, p, j - 1);
    } else if |items| > 1 {
      StripItemAt(c, items[1..], n + 1, doc, p, 0);
    }
  }

  lemma {:induction false} LiteralItemAt(c: Case, values: Values, items: seq<Node>, n: nat, doc: string, p: Path, j: nat)
    requires Valid(c) && WalkItems(c, LiteralPass(values), items, n, doc, p).Some? && j < |items|
    ensures var inner := p + [ElementStep(items[j], n + j)];
            && |WalkItems(c, LiteralPass(values), items, n, doc, p).value.result| == |items|
            && Walk(c, LiteralPass(values), items[j], doc, inner).Some?
            && WalkItems(c, LiteralPass(values), items, n, doc, p).value.result[j] == Literal(c, values, items[j], doc, inner)
    decreases items
  {
    if j > 0 {
      LiteralItemAt(c, values, items[1..], n + 1, doc, p, j - 1);
    } else if |items| > 1 {
      LiteralItemAt(c, values, items[1..], n + 1, doc, p, 0);
    }
  }

  /* ---- a tree with references is not its stripped form ---- */

  lemma {:induction false} ScalarHasKey(es: seq<Entry>, field: string)
    requires FirstScalar(es, field).Some?
    ensures field in Keys(es)
  {
    RestKeys(es);
    if !(es[0].key == field && es[0].value.Scalar?) {
      ScalarHasKey(es[1..], field);
    }
  }

  /** The field of a reference is gone from the stripped mapping and stays in the literal one. */
  lemma RefGone(c: Case, values: Values, n: Node, doc: string, p: Path, field: string)
    requires Valid(c) && n.Mapping? && Unique(n.entries) && RefAt(n, field)
    requires Strip(c, n, doc, p).Some? && Walk(c, LiteralPass(values), n, doc, p).Some?
    ensures Strip(c, n, doc, p).value.Mapping? && field !in Keys(Strip(c, n, doc, p).value.entries)
    ensures Literal(c, values, n, doc, p).Mapping? && field in Keys(Literal(c, values, n, doc, p).entries)
  {
    var k :| 0 <= k < |n.entries| && n.entries[k].key == field && IsRef(n.entries[k].value);
    StripChild(c, n.entries, doc, p, k);
    LiteralChild(c, values, n.entries, doc, p, k);
    NormKeys(c, StripEntries(c, n.entries, doc, p).value, doc, p);
    NormKeys(c, WalkEntries(c, LiteralPass(values), n.entries, doc, p).value.result, doc, p);
  }

  /** So the two mean different things, at whatever path. */
  lemma RefGoneDiffers(c: Case, values: Values, n: Node, doc: string, p: Path, field: string, q: Path, q': Path)
    requires Valid(c) && n.Mapping? && Unique(n.entries) && RefAt(n, field)
    requires Strip(c, n, doc, p).Some? && Walk(c, LiteralPass(values), n, doc, p).Some?
    ensures Norm(c, Strip(c, n, doc, p).value, doc, q) != Norm(c, Literal(c, values, n, doc, p), doc, q')
  {
    RefGone(c, values, n, doc, p, field);
    NormKeys(c, Strip(c, n, doc, p).value.entries, doc, q);
    NormKeys(c, Literal(c, values, n, doc, p).entries, doc, q');
  }

  /** An element that a reference names is called otherwise without it. */
  lemma StepGone(c: Case, values: Values, item: Node, i: nat, doc: string, p: Path)
    requires Valid(c) && item.Mapping? && Unique(item.entries) && NamedByRef(item)
    requires Strip(c, item, doc, p).Some? && Walk(c, LiteralPass(values), item, doc, p).Some?
    ensures ElementStep(Strip(c, item, doc, p).value, i) != ElementStep(item, i)
  {
    var field := NamingField(item);
    RefGone(c, values, item, doc, p, field);
    var es := Strip(c, item, doc, p).value.entries;
    if FirstScalar(es, field).Some? {
      ScalarHasKey(es, field);
    }
  }

  lemma {:induction false} StripDiffers(c: Case, values: Values, n: Node, doc: string, p: Path)
    requires Valid(c) && !Quiet(c, n, doc, p) && !IsRef(n) && Bindable(c, values, n, doc, p)
    requires Strip(c, n, doc, p).Some? && Walk(c, LiteralPass(values), n, doc, p).Some?
    ensures Norm(c, Strip(c, n, doc, p).value, doc, p) != Norm(c, Literal(c, values, n, doc, p), doc, p)
    decreases Left(c.embedded, |PathText(p)|), n, 0
  {
    match n
    case Scalar(tag, value) =>
      EmbedLeft(c, doc, p);
      StripDiffers(c, values, c.parse(value).value, doc, p + [Embed(EmbeddedAt(c, doc, p).value.format)]);
    case Mapping(es) =>
      var j, i := EntryOf(c, es, doc, p, 0);
      var inner := p + [Key(es[j].key)];
      StepLeft(c, p, Key(es[j].key));
      StripChild(c, es, doc, p, j);
      LiteralChild(c, values, es, doc, p, j);
      if !IsRef(es[j].value) {
        StripDiffers(c, values, es[j].value, doc, inner);
      }
    case Sequence(items) =>
      var j, i := ItemOf(c, items, 0, doc, p, 0);
      StepLeft(c, p, ElementStep(items[j], j));
      assert BindableItem(c, values, items, j, doc, p);
      StripForm(c, items, j, doc, p);
      LiteralForm(c, values, items, j, doc, p);
      ItemDiffers(c, values, items[j], j, doc, p);
  }

  /** An item of the stripped sequence. */
  lemma StripForm(c: Case, items: seq<Node>, j: nat, doc: string, p: Path)
    requires Valid(c) && j < |items| && StripItems(c, items, 0, doc, p).Some?
    ensures var inner, a := p + [ElementStep(items[j], j)], NormItems(c, StripItems(c, items, 0, doc, p).value, 0, doc, p);
            Strip(c, items[j], doc, inner).Some? && |a| == |items| && a[j] == ElementOf(c, Strip(c, items[j], doc, inner).value, j, doc, p)
  {
    StripItemAt(c, items, 0, doc, p, j);
    NormItemsAt(c, StripItems(c, items, 0, doc, p).value, 0, doc, p, j);
  }

  /** An item of the literal sequence. */
  lemma LiteralForm(c: Case, values: Values, items: seq<Node>, j: nat, doc: string, p: Path)
    requires Valid(c) && j < |items| && WalkItems(c, LiteralPass(values), items, 0, doc, p).Some?
    ensures var inner, b := p + [ElementStep(items[j], j)], NormItems(c, WalkItems(c, LiteralPass(values), items, 0, doc, p).value.result, 0, doc, p);
            && Walk(c, LiteralPass(values), items[j], doc, inner).Some?
            && |b| == |items| && b[j] == ElementOf(c, Literal(c, values, items[j], doc, inner), j, doc, p)
  {
    LiteralItemAt(c, values, items, 0, doc, p, j);
    NormItemsAt(c, WalkItems(c, LiteralPass(values), items, 0, doc, p).value.result, 0, doc, p, j);
  }

  /** What an item means as the element of a sequence. */
  function ElementOf(c: Case, item: Node, j: nat, doc: string, p: Path): Element
    requires Valid(c)
  {
    Element(ElementStep(item, j), Norm(c, item, doc, p + [ElementStep(item, j)]))
  }

  /** An element with references: what is left of it is not its literal value. */
  lemma {:induction false} ItemDiffers(c: Case, values: Values, item: Node, j: nat, doc: string, p: Path)
    requires Valid(c) && NamedPlainly(c, doc, p + [ElementStep(item, j)])
    requires var inner := p + [ElementStep(item, j)];
             && !Quiet(c, item, doc, inner) && !IsRef(item) && Bindable(c, values, item, doc, inner)
             && Strip(c, item, doc, inner).Some? && Walk(c, LiteralPass(values), item, doc, inner).Some?
    ensures var inner := p + [ElementStep(item, j)];
            ElementOf(c, Strip(c, item, doc, inner).value, j, doc, p) != ElementOf(c, Literal(c, values, item, doc, inner), j, doc, p)
    decreases Left(c.embedded, |PathText(p + [ElementStep(item, j)])|), item, 1
  {
    var inner := p + [ElementStep(item, j)];
    var stripped, literal := Strip(c, item, doc, inner).value, Literal(c, values, item, doc, inner);
    if NamedByRef(item) {
      RefGoneDiffers(c, values, item, doc, inner, NamingField(item), p + [ElementStep(stripped, j)], p + [ElementStep(literal, j)]);
    } else {
      ElementKept(c, values, item, j, doc, inner);
      StripDiffers(c, values, item, doc, inner);
    }
  }

  /* ---- the states of a run ---- */

  /** Every element with references is kept. */
  predicate AllFindable(c: Case, items: seq<Node>, doc: string, p: Path)
    requires Valid(c)
  {
    forall j :: 0 <= j < |items| ==> MayChange(c, items, j, doc, p)
  }

  /** The elements have the names that the stripped ones have. */
  predicate SameSteps(c: Case, items: seq<Node>, elements: seq<Element>, doc: string, p: Path)
    requires Valid(c)
  {
    |elements| == |items| && forall j :: 0 <= j < |items| ==> elements[j].step == StrippedStep(c, items[j], j, doc, p)
  }

  /** The element is as it was when its references were taken out. */
  predicate AsStripped(c: Case, item: Node, j: nat, element: Element, doc: string, p: Path)
    requires Valid(c)
  {
    var v := Strip(c, item, doc, p + [ElementStep(item, j)]);
    v.Some? ==> element == ElementOf(c, v.value, j, doc, p)
  }

  /**
   What holds of the meaning of a stripped tree while its bindings are applied: names stay, embedded
   documents that are not identified stay, and where some elements of a sequence are not kept, those
   stay as they were stripped.
   */
  predicate Coherent(c: Case, n: Node, doc: string, p: Path, d: Value)
    requires Valid(c)
    decreases Left(c.embedded, |PathText(p)|), n
  {
    Quiet(c, n, doc, p) ||
    match n
    case Scalar(tag, value) =>
      tag == CANONICAL_TAG
      || (EmbeddedAt(c, doc, p).Some? && c.parse(value).Some? ==>
            var e := EmbeddedAt(c, doc, p).value;
            EmbedLeft(c, doc, p);
            if e.identified then d.Doc? && d.format == e.format && Coherent(c, c.parse(value).value, doc, p + [Embed(e.format)], d.root)
            else Strip(c, n, doc, p).Some? ==> d == Norm(c, Strip(c, n, doc, p).value, doc, p))
    case Mapping(es) => d.Dict? && CoherentEntries(c, es, doc, p, d.fields)
    case Sequence(items) => d.List? && CoherentItems(c, items, doc, p, d.items)
  }

  predicate CoherentEntries(c: Case, es: seq<Entry>, doc: string, p: Path, fields: map<string, Value>)
    requires Valid(c)
    decreases Left(c.embedded, |PathText(p)|), es
  {
    forall j :: 0 <= j < |es| ==>
      (StepLeft(c, p, Key(es[j].key)); Coherent(c, es[j].value, doc, p + [Key(es[j].key)], Child(fields, es[j].key)))
  }

  predicate CoherentItems(c: Case, items: seq<Node>, doc: string, p: Path, elements: seq<Element>)
    requires Valid(c)
    decreases Left(c.embedded, |PathText(p)|), items, 1
  {
    |elements| == |items| && forall j :: 0 <= j < |items| ==> CoherentItem(c, items, j, doc, p, elements)
  }

  predicate CoherentItem(c: Case, items: seq<Node>, j: nat, doc: string, p: Path, elements: seq<Element>)
    requires Valid(c) && j < |items| == |elements|
    decreases Left(c.embedded, |PathText(p)|), items, 0
  {
    StepLeft(c, p, ElementStep(items[j], j));
    && elements[j].step == StrippedStep(c, items[j], j, doc, p)
    && if AllFindable(c, items, doc, p) then Coherent(c, items[j], doc, p + [ElementStep(items[j], j)], elements[j].value)
       else MayChange(c, items, j, doc, p) || AsStripped(c, items[j], j, elements[j], doc, p)
  }

  /** An element without references, or one that can be found. */
  predicate MayChange(c: Case, items: seq<Node>, j: nat, doc: string, p: Path)
    requires Valid(c) && j < |items|
  {
    Quiet(c, items[j], doc, p + [ElementStep(items[j], j)]) || Findable(items, j)
  }

  /* ---- the names of elements ---- */

  /** Without a reference for a name an element keeps its name, and with one it does not. */
  lemma {:induction false} StrippedStepIs(c: Case, values: Values, items: seq<Node>, j: nat, doc: string, p: Path)
    requires Valid(c) && j < |items| && BindableItems(c, values, items, doc, p)
    requires StripItems(c, items, 0, doc, p).Some? && WalkItems(c, LiteralPass(values), items, 0, doc, p).Some?
    ensures var s := ElementStep(items[j], j);
            if !Quiet(c, items[j], doc, p + [s]) && NamedByRef(items[j]) then StrippedStep(c, items[j], j, doc, p) != s
            else StrippedStep(c, items[j], j, doc, p) == s
  {
    assert BindableItem(c, values, items, j, doc, p);
    StripItemAt(c, items, 0, doc, p, j);
    LiteralItemAt(c, values, items, 0, doc, p, j);
    StepAfter(c, values, items[j], j, doc, p + [ElementStep(items[j], j)]);
  }

  lemma {:induction false} StepAfter(c: Case, values: Values, item: Node, j: nat, doc: string, p: Path)
    requires Valid(c) && NamedPlainly(c, doc, p) && Bindable(c, values, item, doc, p)
    requires Strip(c, item, doc, p).Some? && Walk(c, LiteralPass(values), item, doc, p).Some?
    ensures ElementStep(Strip(c, item, doc, p).value, j) == ElementStep(item, j) <==> Quiet(c, item, doc, p) || !NamedByRef(item)
  {
    if Quiet(c, item, doc, p) {
      QuietForms(c, values, item, doc, p);
      StepKept(c, item, j, doc, p);
    } else if NamedByRef(item) {
      StepGone(c, values, item, j, doc, p);
    } else {
      ElementKept(c, values, item, j, doc, p);
    }
  }

  /** A binding of element `j` lands somewhere, the elements being named as stripped: then no
      reference names `j`. */
  lemma {:induction false} LandsUnlessLost(c: Case, values: Values, items: seq<Node>, elements: seq<Element>, j: nat, doc: string, p: Path)
    requires Valid(c) && j < |items| && BindableItems(c, values, items, doc, p) && SameSteps(c, items, elements, doc, p)
    requires StripItems(c, items, 0, doc, p).Some? && WalkItems(c, LiteralPass(values), items, 0, doc, p).Some?
    requires !Quiet(c, items[j], doc, p + [ElementStep(items[j], j)]) && FindElement(elements, ElementStep(items[j], j), 0) < |items|
    ensures !NamedByRef(items[j])
  {
    assert BindableItem(c, values, items, j, doc, p);
    StrippedStepIs(c, values, items, j, doc, p);
  }

  /** It lands on an element of the same name ... */
  lemma {:induction false} LandsOnSame(c: Case, values: Values, items: seq<Node>, elements: seq<Element>, j: nat, doc: string, p: Path)
    requires Valid(c) && j < |items| && BindableItems(c, values, items, doc, p) && SameSteps(c, items, elements, doc, p)
    requires StripItems(c, items, 0, doc, p).Some? && WalkItems(c, LiteralPass(values), items, 0, doc, p).Some?
    requires !Quiet(c, items[j], doc, p + [ElementStep(items[j], j)]) && FindElement(elements, ElementStep(items[j], j), 0) < |items|
    requires !NamedByRef(items[j])
    ensures elements[FindElement(elements, ElementStep(items[j], j), 0)].step == ElementStep(items[j], j)
  {
    StrippedStepIs(c, values, items, j, doc, p);
  }

  /** ... that no reference names either. */
  lemma {:induction false} LandsOnNamed(c: Case, values: Values, items: seq<Node>, elements: seq<Element>, j: nat, doc: string, p: Path)
    requires Valid(c) && j < |items| && BindableItems(c, values, items, doc, p) && SameSteps(c, items, elements, doc, p)
    requires StripItems(c, items, 0, doc, p).Some? && WalkItems(c, LiteralPass(values), items, 0, doc, p).Some?
    requires !Quiet(c, items[j], doc, p + [ElementStep(items[j], j)]) && FindElement(elements, ElementStep(items[j], j), 0) < |items|
    requires !NamedByRef(items[j])
    ensures var a := FindElement(elements, ElementStep(items[j], j), 0);
            && (Quiet(c, items[a], doc, p + [ElementStep(items[a], a)]) || !NamedByRef(items[a]))
            && elements[a].step == ElementStep(items[a], a) == ElementStep(items[j], j)
  {
    var a := FindElement(elements, ElementStep(items[j], j), 0);
    LandsOnSame(c, values, items, elements, j, doc, p);
    assert BindableItem(c, values, items, a, doc, p);
    StrippedStepIs(c, values, items, a, doc, p);
  }

  /** It lands on no element with references that cannot be found. */
  lemma {:induction false} LandsOnFindable(c: Case, values: Values, items: seq<Node>, elements: seq<Element>, j: nat, doc: string, p: Path)
    requires Valid(c) && j < |items| && BindableItems(c, values, items, doc, p) && SameSteps(c, items, elements, doc, p)
    requires StripItems(c, items, 0, doc, p).Some? && WalkItems(c, LiteralPass(values), items, 0, doc, p).Some?
    requires !Quiet(c, items[j], doc, p + [ElementStep(items[j], j)]) && FindElement(elements, ElementStep(items[j], j), 0) < |items|
    requires !NamedByRef(items[j])
    ensures MayChange(c, items, FindElement(elements, ElementStep(items[j], j), 0), doc, p)
  {
    var a := FindElement(elements, ElementStep(items[j], j), 0);
    LandsOnNamed(c, values, items, elements, j, doc, p);
    if !Quiet(c, items[a], doc, p + [ElementStep(items[a], a)]) {
      var first := FindItem(items, ElementStep(items[a], a), 0);
      assert BindableItem(c, values, items, first, doc, p);
      StrippedStepIs(c, values, items, first, doc, p);
    }
  }

  /** And on `j` itself if all elements with references can be found. */
  lemma {:induction false} LandsOnItself(c: Case, values: Values, items: seq<Node>, elements: seq<Element>, j: nat, doc: string, p: Path)
    requires Valid(c) && j < |items| && BindableItems(c, values, items, doc, p) && SameSteps(c, items, elements, doc, p)
    requires StripItems(c, items, 0, doc, p).Some? && WalkItems(c, LiteralPass(values), items, 0, doc, p).Some?
    requires !Quiet(c, items[j], doc, p + [ElementStep(items[j], j)]) && FindElement(elements, ElementStep(items[j], j), 0) < |items|
    requires !NamedByRef(items[j])
    requires AllFindable(c, items, doc, p)
    ensures FindElement(elements, ElementStep(items[j], j), 0) == j
  {
    StrippedStepIs(c, values, items, j, doc, p);
    LandsOnNamed(c, values, items, elements, j, doc, p);
    assert MayChange(c, items, j, doc, p);
  }

  /* ---- the beginning of a run ---- */

  lemma {:induction false} CoherentStart(c: Case, values: Values, n: Node, doc: string, p: Path)
    requires Valid(c) && !IsRef(n) && Bindable(c, values, n, doc, p)
    requires Strip(c, n, doc, p).Some? && Walk(c, LiteralPass(values), n, doc, p).Some?
    ensures Coherent(c, n, doc, p, Norm(c, Strip(c, n, doc, p).value, doc, p))
    decreases Left(c.embedded, |PathText(p)|), n
  {
    if !Quiet(c, n, doc, p) {
      match n
      case Scalar(tag, value) =>
        EmbedLeft(c, doc, p);
        var e, tree := EmbeddedAt(c, doc, p).value, c.parse(value).value;
        if e.identified {
          CoherentStart(c, values, tree, doc, p + [Embed(e.format)]);
        }
      case Mapping(es) =>
        var fields := NormEntries(c, StripEntries(c, es, doc, p).value, doc, p);
        forall j | 0 <= j < |es| ensures Coherent(c, es[j].value, doc, p + [Key(es[j].key)], Child(fields, es[j].key)) {
          StepLeft(c, p, Key(es[j].key));
          StripChild(c, es, doc, p, j);
          LiteralChild(c, values, es, doc, p, j);
          if !IsRef(es[j].value) {
            CoherentStart(c, values, es[j].value, doc, p + [Key(es[j].key)]);
          }
        }
      case Sequence(items) => CoherentStartItems(c, values, items, doc, p);
    }
  }

  lemma {:induction false} CoherentStartItems(c: Case, values: Values, items: seq<Node>, doc: string, p: Path)
    requires Valid(c) && BindableItems(c, values, items, doc, p)
    requires StripItems(c, items, 0, doc, p).Some? && WalkItems(c, LiteralPass(values), items, 0, doc, p).Some?
    ensures CoherentItems(c, items, doc, p, NormItems(c, StripItems(c, items, 0, doc, p).value, 0, doc, p))
    decreases Left(c.embedded, |PathText(p)|), items
  {
    var elements := NormItems(c, StripItems(c, items, 0, doc, p).value, 0, doc, p);
    if items != [] {
      StripForm(c, items, 0, doc, p);
    }
    forall j | 0 <= j < |items| ensures CoherentItem(c, items, j, doc, p, elements) {
      StripForm(c, items, j, doc, p);
      if AllFindable(c, items, doc, p) {
        StepLeft(c, p, ElementStep(items[j], j));
        assert MayChange(c, items, j, doc, p) && BindableItem(c, values, items, j, doc, p);
        LiteralForm(c, values, items, j, doc, p);
        StrippedStepIs(c, values, items, j, doc, p);
        CoherentStart(c, values, items[j], doc, p + [ElementStep(items[j], j)]);
      }
    }
  }

  /* ---- one binding ---- */

  lemma BindFormed(c: Case, n: Node, doc: string, p: Path, k: nat)
    requires Valid(c) && k < |Binds(c, n, doc, p)| && !IsRef(n)
    ensures Binds(c, n, doc, p)[k].path != [] && Formed(Binds(c, n, doc, p)[k].path[0])
  {
    if n.Mapping? {
      var j, i := EntryOf(c, n.entries, doc, p, k);
    } else if n.Sequence? {
      var j, i := ItemOf(c, n.items, 0, doc, p, k);
    }
  }

  /** Setting what a binding of the tree says, in whatever state, keeps the state coherent. */
  lemma {:induction false} CoherentStep(c: Case, values: Values, n: Node, doc: string, p: Path, k: nat, m: Node, v: Node)
    requires Valid(c) && !IsRef(n) && Bindable(c, values, n, doc, p) && k < |Binds(c, n, doc, p)| && Binds(c, n, doc, p)[k].path != []
    requires Strip(c, n, doc, p).Some? && Walk(c, LiteralPass(values), n, doc, p).Some?
    requires Coherent(c, n, doc, p, Norm(c, m, doc, p)) && SetReads(c, doc, m, p, Binds(c, n, doc, p)[k].path, v)
    requires SetAt(c, doc, m, p, Binds(c, n, doc, p)[k].path, v).Some?
    ensures Coherent(c, n, doc, p, Norm(c, SetAt(c, doc, m, p, Binds(c, n, doc, p)[k].path, v).value, doc, p))
    decreases Left(c.embedded, |PathText(p)|), n, 1
  {
    match n
    case Scalar(tag, value) => CoherentStepHost(c, values, n, doc, p, k, m, v);
    case Mapping(es) => CoherentStepEntries(c, values, es, doc, p, k, m, v);
    case Sequence(items) => CoherentStepItems(c, values, items, doc, p, k, Binds(c, n, doc, p)[k].path, m, v);
  }

  lemma {:induction false} CoherentStepHost(c: Case, values: Values, n: Node, doc: string, p: Path, k: nat, m: Node, v: Node)
    requires Valid(c) && n.Scalar? && !IsRef(n) && Bindable(c, values, n, doc, p) && k < |Binds(c, n, doc, p)| && Binds(c, n, doc, p)[k].path != []
    requires Strip(c, n, doc, p).Some? && Walk(c, LiteralPass(values), n, doc, p).Some?
    requires Coherent(c, n, doc, p, Norm(c, m, doc, p)) && SetReads(c, doc, m, p, Binds(c, n, doc, p)[k].path, v)
    requires SetAt(c, doc, m, p, Binds(c, n, doc, p)[k].path, v).Some?
    ensures Coherent(c, n, doc, p, Norm(c, SetAt(c, doc, m, p, Binds(c, n, doc, p)[k].path, v).value, doc, p))
    decreases Left(c.embedded, |PathText(p)|), n, 0
  {
    EmbedLeft(c, doc, p);
    var e, tree := EmbeddedAt(c, doc, p).value, c.parse(n.value).value;
    var s := Embed(e.format);
    var b := Binds(c, tree, doc, p + [s])[k];
    assert ([s] + b.path)[1..] == b.path && ([s] + b.path)[0] == s;
    var state := c.parse(m.value).value;
    CoherentStep(c, values, tree, doc, p + [s], k, state, v);
    HostNorm(c, "!!str", SetAt(c, doc, state, p + [s], b.path, v).value, doc, p, e);
  }

  lemma {:induction false} CoherentStepEntries(c: Case, values: Values, es: seq<Entry>, doc: string, p: Path, k: nat, m: Node, v: Node)
    requires var n := Mapping(es);
             && Valid(c) && Bindable(c, values, n, doc, p) && k < |Binds(c, n, doc, p)| && Binds(c, n, doc, p)[k].path != []
             && Strip(c, n, doc, p).Some? && Walk(c, LiteralPass(values), n, doc, p).Some?
             && Coherent(c, n, doc, p, Norm(c, m, doc, p)) && SetReads(c, doc, m, p, Binds(c, n, doc, p)[k].path, v)
             && SetAt(c, doc, m, p, Binds(c, n, doc, p)[k].path, v).Some?
    ensures Coherent(c, Mapping(es), doc, p, Norm(c, SetAt(c, doc, m, p, Binds(c, Mapping(es), doc, p)[k].path, v).value, doc, p))
    decreases Left(c.embedded, |PathText(p)|), es
  {
    var j, i := EntryOf(c, es, doc, p, k);
    var s := Key(es[j].key);
    StepLeft(c, p, s);
    var b := Binds(c, es[j].value, doc, p + [s])[i];
    assert ([s] + b.path)[1..] == b.path && ([s] + b.path)[0] == s;
    var a := FindKey(m.entries, s.key);
    var child := if a < |m.entries| then m.entries[a].value else Mapping([]);
    NormChild(c, m.entries, s.key, doc, p);
    StripChild(c, es, doc, p, j);
    LiteralChild(c, values, es, doc, p, j);
    var r := v;
    if !IsRef(es[j].value) {
      BindFormed(c, es[j].value, doc, p + [s], i);
      CoherentStep(c, values, es[j].value, doc, p + [s], i, child, v);
      r := SetAt(c, doc, child, p + [s], b.path, v).value;
    } else {
      assert b.path == [];
    }
    NormSet(c, m.entries, s.key, r, doc, p);
    OtherEntries(c, es, j, doc, p, NormEntries(c, m.entries, doc, p), Norm(c, r, doc, p + [s]));
  }

  lemma OtherEntries(c: Case, es: seq<Entry>, j: nat, doc: string, p: Path, fields: map<string, Value>, x: Value)
    requires Valid(c) && Unique(es) && j < |es| && CoherentEntries(c, es, doc, p, fields)
    requires Coherent(c, es[j].value, doc, p + [Key(es[j].key)], x)
    ensures CoherentEntries(c, es, doc, p, fields[es[j].key := x])
  {
    forall i | 0 <= i < |es| ensures Coherent(c, es[i].value, doc, p + [Key(es[i].key)], Child(fields[es[j].key := x], es[i].key)) {
      if i != j {
        assert Child(fields[es[j].key := x], es[i].key) == Child(fields, es[i].key);
      }
    }
  }

  lemma ItemReplaced(c: Case, m: seq<Node>, a: nat, r: Node, doc: string, p: Path)
    requires Valid(c) && a < |m| && ElementStep(r, a) == ElementStep(m[a], a)
    ensures NormItems(c, m, 0, doc, p)[a].step == ElementStep(r, a)
    ensures NormItems(c, m[a := r], 0, doc, p) == NormItems(c, m, 0, doc, p)[a := ElementOf(c, r, a, doc, p)]
  {
    NormItemsAt(c, m, 0, doc, p, a);
    NormItemSet(c, m, a, r, ElementStep(m[a], a), doc, p);
  }

  lemma {:induction false} CoherentStepItems(c: Case, values: Values, items: seq<Node>, doc: string, p: Path, k: nat, whole: Path, m: Node, v: Node)
    requires Valid(c) && BindableItems(c, values, items, doc, p) && k < |BindsItems(c, items, 0, doc, p)|
    requires StripItems(c, items, 0, doc, p).Some? && WalkItems(c, LiteralPass(values), items, 0, doc, p).Some?
    requires m.Sequence? && CoherentItems(c, items, doc, p, NormItems(c, m.items, 0, doc, p))
    requires whole == BindsItems(c, items, 0, doc, p)[k].path && whole != [] && SetReads(c, doc, m, p, whole, v) && SetAt(c, doc, m, p, whole, v).Some?
    ensures var r := SetAt(c, doc, m, p, whole, v).value;
            r.Sequence? && CoherentItems(c, items, doc, p, NormItems(c, r.items, 0, doc, p))
    decreases Left(c.embedded, |PathText(p)|), items, 2
  {
    var j, i, path := SplitBinding(c, values, items, doc, p, k);
    SetUnderElement(c, doc, m, p, ElementStep(items[j], j), path, v);
    CoherentStepItem(c, values, items, j, i, doc, p, m.items, path, v);
  }

  /** A binding of a sequence: the element it is of, and the path below. */
  lemma {:induction false} SplitBinding(c: Case, values: Values, items: seq<Node>, doc: string, p: Path, k: nat) returns (j: nat, i: nat, path: Path)
    requires Valid(c) && BindableItems(c, values, items, doc, p) && k < |BindsItems(c, items, 0, doc, p)|
    requires StripItems(c, items, 0, doc, p).Some? && WalkItems(c, LiteralPass(values), items, 0, doc, p).Some?
    ensures j < |items| && BindsItems(c, items, 0, doc, p)[k].path == [ElementStep(items[j], j)] + path
    ensures var s := ElementStep(items[j], j);
            NamedPlainly(c, doc, p + [s]) && Settable(c, values, items[j], i, doc, p + [s], path)
  {
    j, i := ItemOf(c, items, 0, doc, p, k);
    path := Binds(c, items[j], doc, p + [ElementStep(items[j], j)])[i].path;
    IsSettable(c, values, items, j, i, doc, p);
  }

  lemma {:induction false} CoherentStepItem(c: Case, values: Values, items: seq<Node>, j: nat, i: nat, doc: string, p: Path, m: seq<Node>, path: Path, v: Node)
    requires Valid(c) && BindableItems(c, values, items, doc, p) && j < |items|
    requires StripItems(c, items, 0, doc, p).Some? && WalkItems(c, LiteralPass(values), items, 0, doc, p).Some?
    requires CoherentItems(c, items, doc, p, NormItems(c, m, 0, doc, p))
    requires var s := ElementStep(items[j], j);
             && NamedPlainly(c, doc, p + [s]) && Settable(c, values, items[j], i, doc, p + [s], path)
             && FindItem(m, s, 0) < |m| && SetAt(c, doc, m[FindItem(m, s, 0)], p + [s], path, v).Some?
             && SetReads(c, doc, m[FindItem(m, s, 0)], p + [s], path, v)
    ensures var s := ElementStep(items[j], j);
            var a := FindItem(m, s, 0);
            CoherentItems(c, items, doc, p, NormItems(c, m[a := SetAt(c, doc, m[a], p + [s], path, v).value], 0, doc, p))
    decreases Left(c.embedded, |PathText(p)|), items, 1
  {
    var s := ElementStep(items[j], j);
    StepLeft(c, p, s);
    StepsStay(c, items, doc, p, NormItems(c, m, 0, doc, p));
    LandsInState(c, values, items, j, i, doc, p, m, path, v);
    CoherentSetItem(c, values, items, j, i, doc, p, m, FindItem(m, s, 0), path, v);
  }

  /** A binding of a tree whose forms exist. */
  predicate Settable(c: Case, values: Values, n: Node, i: nat, doc: string, p: Path, path: Path)
    requires Valid(c)
  {
    && !IsRef(n) && Bindable(c, values, n, doc, p) && Strip(c, n, doc, p).Some? && Walk(c, LiteralPass(values), n, doc, p).Some?
    && i < |Binds(c, n, doc, p)| && path == Binds(c, n, doc, p)[i].path && path != [] && Formed(path[0])
  }

  lemma {:induction false} IsSettable(c: Case, values: Values, items: seq<Node>, j: nat, i: nat, doc: string, p: Path)
    requires Valid(c) && BindableItems(c, values, items, doc, p) && j < |items|
    requires StripItems(c, items, 0, doc, p).Some? && WalkItems(c, LiteralPass(values), items, 0, doc, p).Some?
    requires i < |Binds(c, items[j], doc, p + [ElementStep(items[j], j)])|
    ensures var s := ElementStep(items[j], j);
            NamedPlainly(c, doc, p + [s]) && Settable(c, values, items[j], i, doc, p + [s], Binds(c, items[j], doc, p + [s])[i].path)
  {
    var s := ElementStep(items[j], j);
    assert BindableItem(c, values, items, j, doc, p);
    StripItemAt(c, items, 0, doc, p, j);
    LiteralItemAt(c, values, items, 0, doc, p, j);
    BindFormed(c, items[j], doc, p + [s], i);
  }

  lemma SetUnderElement(c: Case, doc: string, m: Node, at: Path, s: Step, path: Path, v: Node)
    requires Valid(c) && IsElement(s) && path != [] && SetAt(c, doc, m, at, [s] + path, v).Some? && SetReads(c, doc, m, at, [s] + path, v)
    ensures m.Sequence? && var a := FindItem(m.items, s, 0);
            && a < |m.items| && SetAt(c, doc, m.items[a], at + [s], path, v).Some? && SetReads(c, doc, m.items[a], at + [s], path, v)
            && SetAt(c, doc, m, at, [s] + path, v).value == Sequence(m.items[a := SetAt(c, doc, m.items[a], at + [s], path, v).value])
  {
    assert ([s] + path)[1..] == path;
  }

  /** Where a binding of element `j` lands, in any state. */
  lemma {:induction false} LandsWell(c: Case, values: Values, items: seq<Node>, elements: seq<Element>, j: nat, i: nat, doc: string, p: Path)
    requires Valid(c) && j < |items| && BindableItems(c, values, items, doc, p) && SameSteps(c, items, elements, doc, p)
    requires StripItems(c, items, 0, doc, p).Some? && WalkItems(c, LiteralPass(values), items, 0, doc, p).Some?
    requires i < |Binds(c, items[j], doc, p + [ElementStep(items[j], j)])| && FindElement(elements, ElementStep(items[j], j), 0) < |items|
    ensures var s := ElementStep(items[j], j);
            var a, path := FindElement(elements, s, 0), Binds(c, items[j], doc, p + [s])[i].path;
            && MayChange(c, items, a, doc, p) && (AllFindable(c, items, doc, p) ==> a == j) && elements[a].step == s
            && (|path| == 1 && IsKey(path[0]) ==> Harmless(s, path[0].key))
  {
    LandsUnlessLost(c, values, items, elements, j, doc, p);
    ElementHarmless(c, items[j], j, doc, p + [ElementStep(items[j], j)], i);
    LandsOnFindable(c, values, items, elements, j, doc, p);
    LandsOnNamed(c, values, items, elements, j, doc, p);
    if AllFindable(c, items, doc, p) {
      LandsOnItself(c, values, items, elements, j, doc, p);
    }
  }

  /** Element `a`, that a binding of element `j` led to, may change, and keeps its name. */
  predicate Landed(c: Case, items: seq<Node>, j: nat, doc: string, p: Path, m: seq<Node>, a: nat, r: Node)
    requires Valid(c) && j < |items|
  {
    && a < |items| && a < |m| && MayChange(c, items, a, doc, p) && (AllFindable(c, items, doc, p) ==> a == j)
    && ElementStep(m[a], a) == ElementStep(items[j], j) == ElementStep(r, a)
  }

  lemma {:induction false} StepsStay(c: Case, items: seq<Node>, doc: string, p: Path, elements: seq<Element>)
    requires Valid(c) && CoherentItems(c, items, doc, p, elements)
    ensures SameSteps(c, items, elements, doc, p)
  {
    forall j | 0 <= j < |items| ensures elements[j].step == StrippedStep(c, items[j], j, doc, p) {
      assert CoherentItem(c, items, j, doc, p, elements);
    }
  }

  lemma {:induction false} LandsInState(c: Case, values: Values, items: seq<Node>, j: nat, i: nat, doc: string, p: Path, m: seq<Node>, path: Path, v: Node)
    requires Valid(c) && j < |items| && BindableItems(c, values, items, doc, p) && SameSteps(c, items, NormItems(c, m, 0, doc, p), doc, p)
    requires StripItems(c, items, 0, doc, p).Some? && WalkItems(c, LiteralPass(values), items, 0, doc, p).Some?
    requires var s := ElementStep(items[j], j);
             && NamedPlainly(c, doc, p + [s]) && Settable(c, values, items[j], i, doc, p + [s], path)
             && FindItem(m, s, 0) < |m| && SetAt(c, doc, m[FindItem(m, s, 0)], p + [s], path, v).Some?
    ensures var s := ElementStep(items[j], j);
            var a := FindItem(m, s, 0);
            Landed(c, items, j, doc, p, m, a, SetAt(c, doc, m[a], p + [s], path, v).value)
  {
    var s := ElementStep(items[j], j);
    var a := FindItem(m, s, 0);
    StepInState(c, m, s, doc, p);
    LandsWell(c, values, items, NormItems(c, m, 0, doc, p), j, i, doc, p);
    KeepsStep(c, doc, m[a], p, path, v, s, a);
  }

  lemma StepInState(c: Case, m: seq<Node>, s: Step, doc: string, p: Path)
    requires Valid(c)
    ensures FindElement(NormItems(c, m, 0, doc, p), s, 0) == FindItem(m, s, 0)
    ensures var a := FindItem(m, s, 0); a < |m| ==> NormItems(c, m, 0, doc, p)[a].step == ElementStep(m[a], a)
  {
    FindSame(c, m, s, doc, p);
    var a := FindItem(m, s, 0);
    if a < |m| {
      NormItemsAt(c, m, 0, doc, p, a);
    }
  }

  lemma KeepsStep(c: Case, doc: string, item: Node, p: Path, path: Path, v: Node, s: Step, a: nat)
    requires path != [] && SetAt(c, doc, item, p + [s], path, v).Some? && NamedPlainly(c, doc, p + [s])
    requires ElementStep(item, a) == s && Formed(path[0]) && (|path| == 1 && IsKey(path[0]) ==> Harmless(s, path[0].key))
    ensures ElementStep(SetAt(c, doc, item, p + [s], path, v).value, a) == s
  {
    StepUnchanged(c, doc, item, p + [s], path, v, s, a);
  }

  /** The element has its new value, and the state is coherent again. */
  lemma {:induction false} CoherentSetItem(c: Case, values: Values, items: seq<Node>, j: nat, i: nat, doc: string, p: Path, m: seq<Node>, a: nat, path: Path, v: Node)
    requires Valid(c) && j < |items| && CoherentItems(c, items, doc, p, NormItems(c, m, 0, doc, p)) && a < |m|
    requires var s := ElementStep(items[j], j);
             && Settable(c, values, items[j], i, doc, p + [s], path)
             && SetAt(c, doc, m[a], p + [s], path, v).Some? && SetReads(c, doc, m[a], p + [s], path, v)
             && Landed(c, items, j, doc, p, m, a, SetAt(c, doc, m[a], p + [s], path, v).value)
             && Left(c.embedded, |PathText(p + [s])|) <= Left(c.embedded, |PathText(p)|)
    ensures CoherentItems(c, items, doc, p, NormItems(c, m[a := SetAt(c, doc, m[a], p + [ElementStep(items[j], j)], path, v).value], 0, doc, p))
    decreases Left(c.embedded, |PathText(p)|), items, 0
  {
    var s := ElementStep(items[j], j);
    if AllFindable(c, items, doc, p) {
      CoherentAt(c, items, j, doc, p, NormItems(c, m, 0, doc, p));
      NormItemsAt(c, m, 0, doc, p, j);
      CoherentStep(c, values, items[j], doc, p + [s], i, m[j], v);
    }
    StateReplaced(c, items, j, doc, p, m, a, SetAt(c, doc, m[a], p + [s], path, v).value);
  }

  lemma {:induction false} StateReplaced(c: Case, items: seq<Node>, j: nat, doc: string, p: Path, m: seq<Node>, a: nat, r: Node)
    requires Valid(c) && j < |items| && CoherentItems(c, items, doc, p, NormItems(c, m, 0, doc, p)) && Landed(c, items, j, doc, p, m, a, r)
    requires AllFindable(c, items, doc, p) ==> Coherent(c, items[j], doc, p + [ElementStep(items[j], j)], Norm(c, r, doc, p + [ElementStep(items[j], j)]))
    ensures CoherentItems(c, items, doc, p, NormItems(c, m[a := r], 0, doc, p))
  {
    ItemReplaced(c, m, a, r, doc, p);
    OtherItems(c, items, a, doc, p, NormItems(c, m, 0, doc, p), ElementOf(c, r, a, doc, p));
  }

  lemma {:induction false} CoherentAt(c: Case, items: seq<Node>, j: nat, doc: string, p: Path, elements: seq<Element>)
    requires Valid(c) && j < |items| && CoherentItems(c, items, doc, p, elements) && AllFindable(c, items, doc, p)
    ensures |elements| == |items| && Coherent(c, items[j], doc, p + [ElementStep(items[j], j)], elements[j].value)
  {
    assert CoherentItem(c, items, j, doc, p, elements);
  }

  lemma {:induction false} OtherItems(c: Case, items: seq<Node>, a: nat, doc: string, p: Path, elements: seq<Element>, x: Element)
    requires Valid(c) && CoherentItems(c, items, doc, p, elements) && a < |elements| && x.step == elements[a].step
    requires if AllFindable(c, items, doc, p) then Coherent(c, items[a], doc, p + [ElementStep(items[a], a)], x.value)
             else MayChange(c, items, a, doc, p)
    ensures CoherentItems(c, items, doc, p, elements[a := x])
  {
    var after := elements[a := x];
    forall j | 0 <= j < |items| ensures CoherentItem(c, items, j, doc, p, after) {
      assert CoherentItem(c, items, j, doc, p, elements);
    }
    assert CoherentItems(c, items, doc, p, after);
  }

  /* ---- the end of a run ---- */

  /** A state that is the literal form: then every binding has found its place. */
  lemma {:induction false} CoherentEnd(c: Case, values: Values, n: Node, doc: string, p: Path)
    requires Valid(c) && !IsRef(n) && Bindable(c, values, n, doc, p)
    requires Strip(c, n, doc, p).Some? && Walk(c, LiteralPass(values), n, doc, p).Some?
    requires Coherent(c, n, doc, p, Norm(c, Literal(c, values, n, doc, p), doc, p))
    ensures Reached(c, n, doc, p)
    decreases Left(c.embedded, |PathText(p)|), n
  {
    if !Quiet(c, n, doc, p) {
      match n
      case Scalar(tag, value) =>
        EmbedLeft(c, doc, p);
        var e, tree := EmbeddedAt(c, doc, p).value, c.parse(value).value;
        if e.identified {
          CoherentEnd(c, values, tree, doc, p + [Embed(e.format)]);
        } else {
          StripDiffers(c, values, n, doc, p);
        }
      case Mapping(es) =>
        forall j | 0 <= j < |es| ensures Reached(c, es[j].value, doc, p + [Key(es[j].key)]) {
          StepLeft(c, p, Key(es[j].key));
          StripChild(c, es, doc, p, j);
          LiteralChild(c, values, es, doc, p, j);
          if !IsRef(es[j].value) {
            CoherentEnd(c, values, es[j].value, doc, p + [Key(es[j].key)]);
          }
        }
      case Sequence(items) => CoherentEndItems(c, values, items, doc, p);
    }
  }

  lemma {:induction false} CoherentEndItems(c: Case, values: Values, items: seq<Node>, doc: string, p: Path)
    requires Valid(c) && BindableItems(c, values, items, doc, p)
    requires StripItems(c, items, 0, doc, p).Some? && WalkItems(c, LiteralPass(values), items, 0, doc, p).Some?
    requires CoherentItems(c, items, doc, p, NormItems(c, WalkItems(c, LiteralPass(values), items, 0, doc, p).value.result, 0, doc, p))
    ensures ReachedItems(c, items, doc, p)
    decreases Left(c.embedded, |PathText(p)|), items
  {
    AllAreFindable(c, values, items, doc, p);
    forall j | 0 <= j < |items|
      ensures ReachedItem(c, items, j, doc, p)
    {
      assert MayChange(c, items, j, doc, p) && BindableItem(c, values, items, j, doc, p);
      assert CoherentItem(c, items, j, doc, p, NormItems(c, WalkItems(c, LiteralPass(values), items, 0, doc, p).value.result, 0, doc, p));
      if !Quiet(c, items[j], doc, p + [ElementStep(items[j], j)]) {
        StepLeft(c, p, ElementStep(items[j], j));
        StripForm(c, items, j, doc, p);
        LiteralForm(c, values, items, j, doc, p);
        ElementKept(c, values, items[j], j, doc, p + [ElementStep(items[j], j)]);
        CoherentEnd(c, values, items[j], doc, p + [ElementStep(items[j], j)]);
      }
    }
  }

  lemma AllAreFindable(c: Case, values: Values, items: seq<Node>, doc: string, p: Path)
    requires Valid(c) && BindableItems(c, values, items, doc, p)
    requires StripItems(c, items, 0, doc, p).Some? && WalkItems(c, LiteralPass(values), items, 0, doc, p).Some?
    requires CoherentItems(c, items, doc, p, NormItems(c, WalkItems(c, LiteralPass(values), items, 0, doc, p).value.result, 0, doc, p))
    ensures AllFindable(c, items, doc, p)
  {
    forall j | 0 <= j < |items|
      ensures MayChange(c, items, j, doc, p)
    {
      StripForm(c, items, j, doc, p);
      LiteralForm(c, values, items, j, doc, p);
      if !MayChange(c, items, j, doc, p) {
        assert CoherentItem(c, items, j, doc, p, NormItems(c, WalkItems(c, LiteralPass(values), items, 0, doc, p).value.result, 0, doc, p));
        assert BindableItem(c, values, items, j, doc, p);
        ItemDiffers(c, values, items[j], j, doc, p);
      }
    }
  }
}
