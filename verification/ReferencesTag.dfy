/** Resolving the tag form gives the literal form. */
module ReferencesTag {
  import opened Wrappers
  import opened PathSyntax
  import opened References

  /** No embedded document stands where a sequence element gets its name. */
  predicate NamedPlainly(c: Case, doc: string, p: Path) {
    forall k :: 0 <= k < |IDENTIFYING| ==> EmbeddedAt(c, doc, p + [Key(IDENTIFYING[k])]).None?
  }

  /** Finds the candidate's references and accepts none. */
  function NothingPass(): Pass {
    Pass(CANDIDATE_TAG, false, (ref: string) => None)
  }

  /** Reading what was written, where nothing is referred to, and writing it gives the same text. */
  predicate Settled(c: Case, t: Node, format: string, doc: string, p: Path)
    requires Valid(c)
  {
    var text := c.encode(t, format);
    text.Some? ==>
      && c.parse(text.value).Some?
      && var w := Walk(c, NothingPass(), c.parse(text.value).value, doc, p);
         w.Some? && c.encode(w.value.result, format) == text
  }

  /** What is written for a tree, if it can be written, reads back as the tree. */
  predicate ReadsAs(c: Case, t: Node, format: string) {
    c.encode(t, format).Some? ==> c.parse(c.encode(t, format).value) == Some(t)
  }

  /**
   What the tag form asks of a canonical tree: the candidate's tag is not in use; an embedded
   document that holds a reference is identified, and its text in the tag form reads back as the tree
   it was written from; the text of one that holds none comes out the same when it is read and
   written again; and no element is named by an embedded document.
   */
  predicate Fit(c: Case, n: Node, doc: string, p: Path)
    requires Valid(c)
    decreases Left(c.embedded, |PathText(p)|), n
  {
    match n
    case Scalar(tag, value) =>
      if tag == CANDIDATE_TAG then false
      else if tag == CANONICAL_TAG || EmbeddedAt(c, doc, p).None? || c.parse(value).None? then true
      else
        EmbedLeft(c, doc, p);
        var d, tree := EmbeddedAt(c, doc, p).value, c.parse(value).value;
        var inner := p + [Embed(d.format)];
        var r := Walk(c, TagPass(), tree, doc, inner);
        if r.None? then true
        else if r.value.found == [] then d.identified ==> Settled(c, r.value.result, d.format, doc, inner)
        else
          d.identified && Fit(c, tree, doc, inner) && ReadsAs(c, r.value.result, d.format)
    case Mapping(es) => FitEntries(c, es, doc, p)
    case Sequence(items) => FitItems(c, items, 0, doc, p)
  }

  predicate FitEntries(c: Case, es: seq<Entry>, doc: string, p: Path)
    requires Valid(c)
    decreases Left(c.embedded, |PathText(p)|), es
  {
    if es == [] then true
    else
      StepLeft(c, p, Key(es[0].key));
      Fit(c, es[0].value, doc, p + [Key(es[0].key)]) && FitEntries(c, es[1..], doc, p)
  }

  predicate FitItems(c: Case, items: seq<Node>, i: nat, doc: string, p: Path)
    requires Valid(c)
    decreases Left(c.embedded, |PathText(p)|), items
  {
    if items == [] then true
    else
      var s := ElementStep(items[0], i);
      StepLeft(c, p, s);
      Fit(c, items[0], doc, p + [s]) && NamedPlainly(c, doc, p + [s]) && FitItems(c, items[1..], i + 1, doc, p)
  }

  /* ---- a tree without references ---- */

  /** Reads the canonical references, also in embedded documents that are not identified. */
  predicate Canonical(w: Pass) {
    w.tag == CANONICAL_TAG && w.all
  }

  /** Where nothing is referred to, every form that reads the canonical tags is the same. */
  lemma {:induction false} NothingToReplace(c: Case, w: Pass, w': Pass, n: Node, doc: string, p: Path)
    requires Valid(c) && Canonical(w) && Canonical(w') && Walk(c, w, n, doc, p).Some? && Walk(c, w, n, doc, p).value.found == []
    ensures Walk(c, w', n, doc, p) == Walk(c, w, n, doc, p)
    decreases Left(c.embedded, |PathText(p)|), n
  {
    match n
    case Scalar(tag, value) =>
      var d := EmbeddedAt(c, doc, p);
      if d.Some? {
        EmbedLeft(c, doc, p);
        NothingToReplace(c, w, w', c.parse(value).value, doc, p + [Embed(d.value.format)]);
      }
    case Mapping(es) => NothingInEntries(c, w, w', es, doc, p);
    case Sequence(items) => NothingInItems(c, w, w', items, 0, doc, p);
  }

  lemma {:induction false} NothingInEntries(c: Case, w: Pass, w': Pass, es: seq<Entry>, doc: string, p: Path)
    requires Valid(c) && Canonical(w) && Canonical(w') && WalkEntries(c, w, es, doc, p).Some? && WalkEntries(c, w, es, doc, p).value.found == []
    ensures WalkEntries(c, w', es, doc, p) == WalkEntries(c, w, es, doc, p)
    decreases Left(c.embedded, |PathText(p)|), es
  {
    if es != [] {
      StepLeft(c, p, Key(es[0].key));
      NothingToReplace(c, w, w', es[0].value, doc, p + [Key(es[0].key)]);
      NothingInEntries(c, w, w', es[1..], doc, p);
    }
  }

  lemma {:induction false} NothingInItems(c: Case, w: Pass, w': Pass, items: seq<Node>, i: nat, doc: string, p: Path)
    requires Valid(c) && Canonical(w) && Canonical(w') && WalkItems(c, w, items, i, doc, p).Some? && WalkItems(c, w, items, i, doc, p).value.found == []
    ensures WalkItems(c, w', items, i, doc, p) == WalkItems(c, w, items, i, doc, p)
    decreases Left(c.embedded, |PathText(p)|), items
  {
    if items != [] {
      var s := ElementStep(items[0], i);
      StepLeft(c, p, s);
      NothingToReplace(c, w, w', items[0], doc, p + [s]);
      NothingInItems(c, w, w', items[1..], i + 1, doc, p);
    }
  }

  /** Where nothing is accepted because nothing is found, a resolution changes nothing more. */
  lemma {:induction false} NothingToResolve(c: Case, values: Values, n: Node, doc: string, p: Path)
    requires Valid(c) && Walk(c, NothingPass(), n, doc, p).Some?
    ensures Walk(c, ResolvePass(values), n, doc, p) == Walk(c, NothingPass(), n, doc, p)
    ensures Walk(c, NothingPass(), n, doc, p).value.found == []
    decreases Left(c.embedded, |PathText(p)|), n
  {
    match n
    case Scalar(tag, value) =>
      var d := EmbeddedAt(c, doc, p);
      if d.Some? && d.value.identified {
        EmbedLeft(c, doc, p);
        NothingToResolve(c, values, c.parse(value).value, doc, p + [Embed(d.value.format)]);
      }
    case Mapping(es) => NothingInEntriesToResolve(c, values, es, doc, p);
    case Sequence(items) => NothingInItemsToResolve(c, values, items, 0, doc, p);
  }

  lemma {:induction false} NothingInEntriesToResolve(c: Case, values: Values, es: seq<Entry>, doc: string, p: Path)
    requires Valid(c) && WalkEntries(c, NothingPass(), es, doc, p).Some?
    ensures WalkEntries(c, ResolvePass(values), es, doc, p) == WalkEntries(c, NothingPass(), es, doc, p)
    ensures WalkEntries(c, NothingPass(), es, doc, p).value.found == []
    decreases Left(c.embedded, |PathText(p)|), es
  {
    if es != [] {
      StepLeft(c, p, Key(es[0].key));
      NothingToResolve(c, values, es[0].value, doc, p + [Key(es[0].key)]);
      NothingInEntriesToResolve(c, values, es[1..], doc, p);
    }
  }

  lemma {:induction false} NothingInItemsToResolve(c: Case, values: Values, items: seq<Node>, i: nat, doc: string, p: Path)
    requires Valid(c) && WalkItems(c, NothingPass(), items, i, doc, p).Some?
    ensures WalkItems(c, ResolvePass(values), items, i, doc, p) == WalkItems(c, NothingPass(), items, i, doc, p)
    ensures WalkItems(c, NothingPass(), items, i, doc, p).value.found == []
    decreases Left(c.embedded, |PathText(p)|), items
  {
    if items != [] {
      var s := ElementStep(items[0], i);
      StepLeft(c, p, s);
      NothingToResolve(c, values, items[0], doc, p + [s]);
      NothingInItemsToResolve(c, values, items[1..], i + 1, doc, p);
    }
  }

  /* ---- names survive ---- */

  /** Writing references in the candidate's tag leaves the scalars that name things. */
  lemma {:induction false} NamesKept(c: Case, es: seq<Entry>, doc: string, p: Path, field: string)
    requires Valid(c) && WalkEntries(c, TagPass(), es, doc, p).Some?
    requires EmbeddedAt(c, doc, p + [Key(field)]).None?
    ensures FirstScalar(WalkEntries(c, TagPass(), es, doc, p).value.result, field) == FirstScalar(es, field)
    decreases es
  {
    if es != [] {
      NamesKept(c, es[1..], doc, p, field);
      var v := Walk(c, TagPass(), es[0].value, doc, p + [Key(es[0].key)]).value.result;
      var r := WalkEntries(c, TagPass(), es[1..], doc, p).value.result;
      assert ([Entry(es[0].key, v)] + r)[1..] == r;
    }
  }

  lemma StepKept(c: Case, item: Node, i: nat, doc: string, p: Path)
    requires Valid(c) && Walk(c, TagPass(), item, doc, p).Some? && NamedPlainly(c, doc, p)
    ensures ElementStep(Walk(c, TagPass(), item, doc, p).value.result, i) == ElementStep(item, i)
  {
    assert IDENTIFYING[0] == "name" && IDENTIFYING[1] == "interface" && IDENTIFYING[2] == "path";
    if item.Mapping? {
      NamesKept(c, item.entries, doc, p, "name");
      NamesKept(c, item.entries, doc, p, "interface");
      NamesKept(c, item.entries, doc, p, "path");
    }
  }

  /* ---- resolution ---- */

  /** Resolving the tag form and writing the literal form give the same tree and the same
      references in the same order, or both fail. */
  lemma {:induction false} ResolveNode(c: Case, values: Values, n: Node, doc: string, p: Path)
    requires Valid(c) && Fit(c, n, doc, p) && Walk(c, TagPass(), n, doc, p).Some?
    ensures Walk(c, ResolvePass(values), Walk(c, TagPass(), n, doc, p).value.result, doc, p)
            == Walk(c, LiteralPass(values), n, doc, p)
    ensures Walk(c, LiteralPass(values), n, doc, p).Some? ==>
              Walk(c, LiteralPass(values), n, doc, p).value.found == Walk(c, TagPass(), n, doc, p).value.found
    decreases Left(c.embedded, |PathText(p)|), n
  {
    match n
    case Scalar(tag, value) =>
      var d := EmbeddedAt(c, doc, p);
      if tag != CANONICAL_TAG && d.Some? {
        EmbedLeft(c, doc, p);
        ResolveHost(c, values, value, tag, d.value, doc, p);
      }
    case Mapping(es) => ResolveEntries(c, values, es, doc, p);
    case Sequence(items) => ResolveItems(c, values, items, 0, doc, p);
  }

  lemma {:induction false} ResolveHost(c: Case, values: Values, value: string, tag: string, d: Decl, doc: string, p: Path)
    requires Valid(c) && Fit(c, Scalar(tag, value), doc, p) && Walk(c, TagPass(), Scalar(tag, value), doc, p).Some?
    requires tag != CANONICAL_TAG && EmbeddedAt(c, doc, p) == Some(d)
    requires Left(c.embedded, |PathText(p + [Embed(d.format)])|) < Left(c.embedded, |PathText(p)|)
    ensures Walk(c, ResolvePass(values), Walk(c, TagPass(), Scalar(tag, value), doc, p).value.result, doc, p)
            == Walk(c, LiteralPass(values), Scalar(tag, value), doc, p)
    ensures Walk(c, LiteralPass(values), Scalar(tag, value), doc, p).Some? ==>
              Walk(c, LiteralPass(values), Scalar(tag, value), doc, p).value.found
              == Walk(c, TagPass(), Scalar(tag, value), doc, p).value.found
    decreases Left(c.embedded, |PathText(p)|), Scalar(tag, value), 0
  {
    var tree, inner := c.parse(value).value, p + [Embed(d.format)];
    var r := Walk(c, TagPass(), tree, doc, inner).value;
    var text := c.encode(r.result, d.format).value;
    assert Walk(c, TagPass(), Scalar(tag, value), doc, p).value.result == Scalar("!!str", text);
    if r.found != [] {
      ResolveNode(c, values, tree, doc, inner);
    } else {
      NothingToReplace(c, TagPass(), LiteralPass(values), tree, doc, inner);
      if d.identified {
        NothingToResolve(c, values, c.parse(text).value, doc, inner);
      }
    }
  }

  lemma {:induction false} ResolveEntries(c: Case, values: Values, es: seq<Entry>, doc: string, p: Path)
    requires Valid(c) && FitEntries(c, es, doc, p) && WalkEntries(c, TagPass(), es, doc, p).Some?
    ensures WalkEntries(c, ResolvePass(values), WalkEntries(c, TagPass(), es, doc, p).value.result, doc, p)
            == WalkEntries(c, LiteralPass(values), es, doc, p)
    ensures WalkEntries(c, LiteralPass(values), es, doc, p).Some? ==>
              WalkEntries(c, LiteralPass(values), es, doc, p).value.found == WalkEntries(c, TagPass(), es, doc, p).value.found
    decreases Left(c.embedded, |PathText(p)|), es
  {
    if es != [] {
      StepLeft(c, p, Key(es[0].key));
      ResolveNode(c, values, es[0].value, doc, p + [Key(es[0].key)]);
      ResolveEntries(c, values, es[1..], doc, p);
      var v := Walk(c, TagPass(), es[0].value, doc, p + [Key(es[0].key)]).value.result;
      var r := WalkEntries(c, TagPass(), es[1..], doc, p).value.result;
      var t := [Entry(es[0].key, v)] + r;
      assert t[1..] == r;
    }
  }

  lemma {:induction false} ResolveItems(c: Case, values: Values, items: seq<Node>, i: nat, doc: string, p: Path)
    requires Valid(c) && FitItems(c, items, i, doc, p) && WalkItems(c, TagPass(), items, i, doc, p).Some?
    ensures WalkItems(c, ResolvePass(values), WalkItems(c, TagPass(), items, i, doc, p).value.result, i, doc, p)
            == WalkItems(c, LiteralPass(values), items, i, doc, p)
    ensures WalkItems(c, LiteralPass(values), items, i, doc, p).Some? ==>
              WalkItems(c, LiteralPass(values), items, i, doc, p).value.found == WalkItems(c, TagPass(), items, i, doc, p).value.found
    decreases Left(c.embedded, |PathText(p)|), items
  {
    if items != [] {
      var s := ElementStep(items[0], i);
      StepLeft(c, p, s);
      ResolveNode(c, values, items[0], doc, p + [s]);
      ResolveItems(c, values, items[1..], i + 1, doc, p);
      StepKept(c, items[0], i, doc, p + [s]);
      var v := Walk(c, TagPass(), items[0], doc, p + [s]).value.result;
      var r := WalkItems(c, TagPass(), items[1..], i + 1, doc, p).value.result;
      var t := [v] + r;
      assert t[1..] == r;
    }
  }

  /* ---- documents ---- */

  /** No embedded document stands where a document gets its name. */
  predicate DocFit(c: Case, root: Node)
    requires Valid(c)
  {
    && Fit(c, root, DocID(root), [])
    && EmbeddedAt(c, DocID(root), [Key("kind")]).None? && EmbeddedAt(c, DocID(root), [Key("name")]).None?
  }

  lemma {:induction false} LastValueKept(c: Case, es: seq<Entry>, doc: string, p: Path, field: string)
    requires Valid(c) && WalkEntries(c, TagPass(), es, doc, p).Some?
    requires EmbeddedAt(c, doc, p + [Key(field)]).None?
    ensures var r := WalkEntries(c, TagPass(), es, doc, p).value.result;
            && |r| == |es|
            && (forall k :: 0 <= k < |es| ==> r[k].key == es[k].key && (es[k].key == field ==> ValueOf(r[k].value) == ValueOf(es[k].value)))
            && LastValue(r, field) == LastValue(es, field)
    decreases es
  {
    if es != [] {
      LastValueKept(c, es[1..], doc, p, field);
      var v := Walk(c, TagPass(), es[0].value, doc, p + [Key(es[0].key)]).value.result;
      var r := WalkEntries(c, TagPass(), es[1..], doc, p).value.result;
      var t := [Entry(es[0].key, v)] + r;
      assert t[1..] == r;
      SameLast(t, es, field);
    }
  }

  lemma {:induction false} SameLast(a: seq<Entry>, b: seq<Entry>, field: string)
    requires |a| == |b|
    requires forall k :: 0 <= k < |a| ==> a[k].key == b[k].key && (a[k].key == field ==> ValueOf(a[k].value) == ValueOf(b[k].value))
    ensures LastValue(a, field) == LastValue(b, field)
  {
    if a != [] {
      SameLast(a[..|a| - 1], b[..|b| - 1], field);
    }
  }

  lemma DocIDKept(c: Case, root: Node)
    requires Valid(c) && DocFit(c, root) && Walk(c, TagPass(), root, DocID(root), []).Some?
    ensures DocID(Walk(c, TagPass(), root, DocID(root), []).value.result) == DocID(root)
  {
    if root.Mapping? {
      assert [] + [Key("kind")] == [Key("kind")] && [] + [Key("name")] == [Key("name")];
      LastValueKept(c, root.entries, DocID(root), [], "kind");
      LastValueKept(c, root.entries, DocID(root), [], "name");
    }
  }

  /**
   The tag form of a fragment, resolved, is its literal form exactly, with one resolution for each
   reference of the canonical fragment, in order; and where a reference has no value, or a resolved
   embedded document cannot be written, both fail.
   */
  lemma {:induction false} TagFormResolves(c: Case, values: Values, docs: seq<Node>)
    requires Valid(c) && WalkDocs(c, TagPass(), docs).Some?
    requires forall k :: 0 <= k < |docs| ==> DocFit(c, docs[k])
    ensures WalkDocs(c, ResolvePass(values), WalkDocs(c, TagPass(), docs).value.result) == WalkDocs(c, LiteralPass(values), docs)
    ensures WalkDocs(c, LiteralPass(values), docs).Some? ==>
              WalkDocs(c, LiteralPass(values), docs).value.found == WalkDocs(c, TagPass(), docs).value.found
  {
    if docs != [] {
      ResolveNode(c, values, docs[0], DocID(docs[0]), []);
      DocIDKept(c, docs[0]);
      TagFormResolves(c, values, docs[1..]);
      var v := Walk(c, TagPass(), docs[0], DocID(docs[0]), []).value.result;
      var r := WalkDocs(c, TagPass(), docs[1..]).value.result;
      assert ([v] + r)[1..] == r;
    }
  }

  /** The condition on embedded documents is needed: one that is not identified keeps the text of
      the tag form, and none of its references is resolved. */
  lemma UnidentifiedStaysOpaque(c: Case, values: Values, tag: string, value: string, doc: string, p: Path)
    requires Valid(c) && tag != CANONICAL_TAG && EmbeddedAt(c, doc, p).Some? && !EmbeddedAt(c, doc, p).value.identified
    requires Walk(c, TagPass(), Scalar(tag, value), doc, p).Some?
    ensures var host := Walk(c, TagPass(), Scalar(tag, value), doc, p).value.result;
            Walk(c, ResolvePass(values), host, doc, p) == Some(Walked(host, []))
  {
  }
}
