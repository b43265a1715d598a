/**
 Binding the documents of a fragment: when the bindings, which name a document by its kind and name,
 and lead to the places below it, restore what the references were taken out of.
 */
module ReferencesDocuments {
  import opened Wrappers
  import opened PathSyntax
  import opened References
  import opened ReferencesTag
  import opened ReferencesMeaning
  import opened ReferencesLens
  import opened ReferencesBinding
  import opened ReferencesReach

  predicate Naming(field: string) {
    field == "kind" || field == "name"
  }

  function KindOf(root: Node): string {
    if root.Mapping? then LastValue(root.entries, "kind") else ""
  }

  /**
   The document keeps its name when its references are taken out: its kind is no reference, and
   neither is its name, unless it has no kind and so is not named by its name.
   */
  predicate NameKept(root: Node) {
    !RefAt(root, "kind") && (RefAt(root, "name") ==> KindOf(root) == "")
  }

  /** References in naming fields have names, and none is called as a document without a kind is. */
  predicate RefsNamed(root: Node) {
    root.Mapping? ==>
      forall k :: 0 <= k < |root.entries| && Naming(root.entries[k].key) && IsRef(root.entries[k].value) ==>
        root.entries[k].value.value != "" && root.entries[k].value.value != NameFrom("", "")
  }

  /** Every embedded document that applying the bindings in order writes reads back. */
  predicate BindsRead(c: Case, values: Values, doc: string, n: Node, binds: seq<Bind>)
    requires Valid(c)
    decreases |binds|
  {
    binds == [] || binds[0].ref !in values || binds[0].path == [] ||
    (var v := values[binds[0].ref];
     var r := SetAt(c, doc, n, [], binds[0].path, v);
     SetReads(c, doc, n, [], binds[0].path, v) && (r.Some? ==> BindsRead(c, values, doc, r.value, binds[1..])))
  }

  /** Without embedded documents nothing is asked of the encoder. */
  lemma {:induction false} PlainBindsRead(c: Case, values: Values, doc: string, n: Node, binds: seq<Bind>)
    requires Valid(c) && c.embedded == []
    ensures BindsRead(c, values, doc, n, binds)
    decreases |binds|
  {
    if binds != [] && binds[0].ref in values && binds[0].path != [] {
      var v := values[binds[0].ref];
      PlainPathReads(c, doc, n, [], binds[0].path, v);
      var r := SetAt(c, doc, n, [], binds[0].path, v);
      if r.Some? {
        PlainBindsRead(c, values, doc, r.value, binds[1..]);
      }
    }
  }

  /** What is asked of a document: see `Bindable`; no embedded document stands where the document gets
      its name; and where bindings are applied to it, the embedded documents they write read back. */
  predicate DocBound(c: Case, values: Values, root: Node)
    requires Valid(c)
  {
    var doc, stripped := DocID(root), Strip(c, root, DocID(root), []);
    && Bindable(c, values, root, doc, []) && RefsNamed(root)
    && EmbeddedAt(c, doc, [Key("kind")]).None? && EmbeddedAt(c, doc, [Key("name")]).None?
    && (NameKept(root) && stripped.Some? ==> BindsRead(c, values, doc, stripped.value, Binds(c, root, doc, [])))
  }

  /* ---- the last value of a field ---- */

  lemma {:induction false} NoLastValue(es: seq<Entry>, field: string)
    requires field !in Keys(es)
    ensures LastValue(es, field) == ""
  {
    if es != [] {
      var n := |es| - 1;
      assert es[n].key in Keys(es);
      forall x | x in Keys(es[..n]) ensures x in Keys(es) {
        var k :| 0 <= k < n && es[..n][k].key == x;
        assert es[k].key == x;
      }
      NoLastValue(es[..n], field);
    }
  }

  lemma {:induction false} LastValueFront(es: seq<Entry>, field: string)
    requires es != [] && es[0].key !in Keys(es[1..])
    ensures LastValue(es, field) == if es[0].key == field then ValueOf(es[0].value) else LastValue(es[1..], field)
  {
    if |es| > 1 {
      var n := |es| - 1;
      assert es[n] == es[1..][n - 1];
      assert es[n].key in Keys(es[1..]);
      assert es[..n][1..] == es[1..][..n - 1];
      forall x | x in Keys(es[..n][1..]) ensures x in Keys(es[1..]) {
        var k :| 0 <= k < n - 1 && es[..n][1..][k].key == x;
        assert es[1..][k].key == x;
      }
      LastValueFront(es[..n], field);
    } else {
      assert es[..0] == [];
    }
  }

  lemma {:induction false} LastValueIs(es: seq<Entry>, field: string, k: nat)
    requires Unique(es) && k < |es| && es[k].key == field
    ensures LastValue(es, field) == ValueOf(es[k].value)
  {
    var n := |es| - 1;
    if k < n {
      LastValueIs(es[..n], field, k);
    }
  }

  /** The field after stripping: gone with its reference, the same otherwise. */
  lemma {:induction false} StrippedField(c: Case, es: seq<Entry>, doc: string, field: string)
    requires Valid(c) && Unique(es) && StripEntries(c, es, doc, []).Some? && EmbeddedAt(c, doc, [Key(field)]).None?
    ensures Keys(StripEntries(c, es, doc, []).value) <= Keys(es)
    ensures LastValue(StripEntries(c, es, doc, []).value, field)
         == if RefAt(Mapping(es), field) then "" else LastValue(es, field)
    decreases es
  {
    if es != [] {
      RestKeys(es);
      StrippedField(c, es[1..], doc, field);
      assert [] + [Key(es[0].key)] == [Key(es[0].key)];
      StrippedFront(c, es, doc, field);
    }
  }

  lemma StrippedFront(c: Case, es: seq<Entry>, doc: string, field: string)
    requires Valid(c) && es != [] && es[0].key !in Keys(es[1..]) && StripEntries(c, es, doc, []).Some?
    requires [] + [Key(es[0].key)] == [Key(es[0].key)] && EmbeddedAt(c, doc, [Key(field)]).None?
    requires Keys(StripEntries(c, es[1..], doc, []).value) <= Keys(es[1..]) && Keys(es[1..]) <= Keys(es)
    requires LastValue(StripEntries(c, es[1..], doc, []).value, field)
          == if RefAt(Mapping(es[1..]), field) then "" else LastValue(es[1..], field)
    ensures Keys(StripEntries(c, es, doc, []).value) <= Keys(es)
    ensures LastValue(StripEntries(c, es, doc, []).value, field) == if RefAt(Mapping(es), field) then "" else LastValue(es, field)
  {
    var kept, rest := StripEntries(c, es, doc, []).value, StripEntries(c, es[1..], doc, []).value;
    LastValueFront(es, field);
    RefAtFront(es, field);
    if kept != rest {
      assert kept[1..] == rest;
      RestKeys(kept);
      LastValueFront(kept, field);
    }
    if es[0].key == field {
      NoLastValue(es[1..], field);
      NoLastValue(rest, field);
      NoRefAt(es[1..], field);
    }
  }

  lemma RefAtFront(es: seq<Entry>, field: string)
    requires es != []
    ensures RefAt(Mapping(es), field) <==> (es[0].key == field && IsRef(es[0].value)) || RefAt(Mapping(es[1..]), field)
  {
    var rest := es[1..];
    forall k | 0 <= k < |rest| ensures rest[k] == es[k + 1] {
    }
    if RefAt(Mapping(es), field) {
      var k :| 0 <= k < |es| && es[k].key == field && IsRef(es[k].value);
      assert k > 0 ==> rest[k - 1] == es[k];
    }
    if RefAt(Mapping(rest), field) {
      var k :| 0 <= k < |rest| && rest[k].key == field && IsRef(rest[k].value);
      assert es[k + 1].key == field && IsRef(es[k + 1].value);
    }
  }

  lemma NoRefAt(es: seq<Entry>, field: string)
    requires field !in Keys(es)
    ensures !RefAt(Mapping(es), field)
  {
    forall k | 0 <= k < |es| ensures es[k].key != field {
      assert es[k].key in Keys(es);
    }
  }

  /* ---- the name after stripping ---- */

  /** Without references the name stays. */
  lemma QuietName(c: Case, values: Values, root: Node)
    requires Valid(c) && DocBound(c, values, root) && Quiet(c, root, DocID(root), []) && Walk(c, LiteralPass(values), root, DocID(root), []).Some?
    ensures Strip(c, root, DocID(root), []).Some? && DocID(Strip(c, root, DocID(root), []).value) == DocID(root)
    ensures NameKept(root)
  {
    var doc := DocID(root);
    QuietForms(c, values, root, doc, []);
    if root.Mapping? {
      assert [] + [Key("kind")] == [Key("kind")] && [] + [Key("name")] == [Key("name")];
      LastValueKept(c, root.entries, doc, [], "kind");
      LastValueKept(c, root.entries, doc, [], "name");
      QuietNoRef(c, root.entries, doc, "kind");
      QuietNoRef(c, root.entries, doc, "name");
    }
  }

  lemma {:induction false} QuietNoRef(c: Case, es: seq<Entry>, doc: string, field: string)
    requires Valid(c) && BindsEntries(c, es, doc, []) == []
    ensures !RefAt(Mapping(es), field)
    decreases es
  {
    if es != [] {
      QuietNoRef(c, es[1..], doc, field);
      RefAtFront(es, field);
      assert |Under(Key(es[0].key), Binds(c, es[0].value, doc, [] + [Key(es[0].key)]))| == |Binds(c, es[0].value, doc, [] + [Key(es[0].key)])|;
    }
  }

  /** A document with references keeps its name exactly when `NameKept` says so. */
  lemma BoundName(c: Case, values: Values, root: Node)
    requires Valid(c) && DocBound(c, values, root) && !Quiet(c, root, DocID(root), []) && Strip(c, root, DocID(root), []).Some?
    ensures DocID(Strip(c, root, DocID(root), []).value) == DocID(root) <==> NameKept(root)
  {
    if root.Mapping? {
      var es, doc := root.entries, DocID(root);
      StrippedField(c, es, doc, "kind");
      StrippedField(c, es, doc, "name");
      if RefAt(root, "kind") {
        var k :| 0 <= k < |es| && es[k].key == "kind" && IsRef(es[k].value);
        LastValueIs(es, "kind", k);
        NamesDiffer(LastValue(es, "kind"), LastValue(es, "name"));
      } else if RefAt(root, "name") {
        var k :| 0 <= k < |es| && es[k].key == "name" && IsRef(es[k].value);
        LastValueIs(es, "name", k);
      }
    }
  }

  /** A document of a kind is not called as one without a kind is. */
  lemma NamesDiffer(kind: string, name: string)
    requires kind != "" && kind != NameFrom("", "")
    ensures NameFrom(kind, name) != NameFrom("", "")
  {
    if name != "" {
      var s := kind + "/" + name;
      assert s[|kind|] == '/';
      var plain := NameFrom("", "");
      assert plain == "v1alpha1" && forall k :: 0 <= k < |plain| ==> plain[k] != '/';
    }
  }

  /* ---- setting keeps the name ---- */

  /** The bindings do not set the kind, and set the name only of a document without a kind. */
  predicate Spares(root: Node, binds: seq<Bind>) {
    forall k :: 0 <= k < |binds| ==>
      binds[k].path != [Key("kind")] && (binds[k].path == [Key("name")] ==> KindOf(root) == "")
  }

  lemma {:induction false} LastValueSet(es: seq<Entry>, i: nat, key: string, v: Node, field: string)
    requires i <= |es| && (i < |es| ==> es[i].key == key)
    requires key == field ==> (if i < |es| then !es[i].value.Scalar? && !v.Scalar? else !v.Scalar? && FindKey(es, field) == |es|)
    ensures LastValue(if i < |es| then es[i := Entry(key, v)] else es + [Entry(key, v)], field) == LastValue(es, field)
    decreases |es|
  {
    if i == |es| {
      var es' := es + [Entry(key, v)];
      assert es'[..|es|] == es;
      if key == field {
        NotThere(es, field);
      }
    } else {
      var n := |es| - 1;
      var es' := es[i := Entry(key, v)];
      if i < n {
        LastValueSet(es[..n], i, key, v, field);
        assert es'[..n] == es[..n][i := Entry(key, v)];
      } else {
        assert es'[..n] == es[..n];
      }
    }
  }

  lemma NotThere(es: seq<Entry>, field: string)
    requires FindKey(es, field) == |es|
    ensures LastValue(es, field) == ""
  {
    forall x | x in Keys(es) ensures x != field {
    }
    NoLastValue(es, field);
  }

  lemma SetKeepsField(c: Case, doc: string, root: Node, path: Path, v: Node, field: string)
    requires path != [] && path != [Key(field)] && root.Mapping? && EmbeddedAt(c, doc, [Key(field)]).None?
    requires path[0] == Key(path[0].key) && SetAt(c, doc, root, [], path, v).Some?
    ensures SetAt(c, doc, root, [], path, v).value.Mapping?
    ensures LastValue(SetAt(c, doc, root, [], path, v).value.entries, field) == LastValue(root.entries, field)
  {
    var es, key := root.entries, path[0].key;
    var i := FindKey(es, key);
    var child := if i < |es| then es[i].value else Mapping([]);
    var r := SetAt(c, doc, root, [], path, v).value;
    assert [] + [path[0]] == [path[0]];
    if key == field {
      assert |path| == 1 ==> path == [Key(field)];
      SetBelow(c, doc, child, [path[0]], path[1..], v);
      LastValueSet(es, i, key, SetAt(c, doc, child, [path[0]], path[1..], v).value, field);
    } else {
      LastValueSet(es, i, key, r.entries[i].value, field);
    }
  }

  lemma SetKeepsName(c: Case, doc: string, root: Node, path: Path, v: Node)
    requires path != [] && path != [Key("kind")] && (path == [Key("name")] ==> KindOf(root) == "")
    requires EmbeddedAt(c, doc, [Key("kind")]).None? && EmbeddedAt(c, doc, [Key("name")]).None?
    requires SetAt(c, doc, root, [], path, v).Some?
    requires Formed(path[0])
    ensures DocID(SetAt(c, doc, root, [], path, v).value) == DocID(root)
    ensures KindOf(SetAt(c, doc, root, [], path, v).value) == KindOf(root)
  {
    if root.Mapping? {
      SetKeepsField(c, doc, root, path, v, "kind");
      if path != [Key("name")] {
        SetKeepsField(c, doc, root, path, v, "name");
      }
    }
  }

  predicate AllUnnaming(c: Case, doc: string, binds: seq<Bind>) {
    forall k :: 0 <= k < |binds| ==> Unnaming(c, doc, [], binds[k].path)
  }

  /** The bindings of one document change that document alone. */
  lemma {:induction false} ResolveDoc(c: Case, values: Values, docs: seq<Node>, i: nat, binds: seq<Bind>) returns (r: Node)
    requires Valid(c) && i < |docs| && FindDoc(docs, DocID(docs[i])) == i
    requires EmbeddedAt(c, DocID(docs[i]), [Key("kind")]).None? && EmbeddedAt(c, DocID(docs[i]), [Key("name")]).None?
    requires Spares(docs[i], binds) && AllUnnaming(c, DocID(docs[i]), binds) && BindsRead(c, values, DocID(docs[i]), docs[i], binds)
    requires Apply(c, Norm(c, docs[i], DocID(docs[i]), []), binds, values, DocID(docs[i]), []).Some?
    ensures ResolveBindings(c, values, docs, Absolute(DocID(docs[i]), [], binds)) == Some(docs[i := r])
    ensures DocID(r) == DocID(docs[i])
    ensures Norm(c, r, DocID(docs[i]), []) == Apply(c, Norm(c, docs[i], DocID(docs[i]), []), binds, values, DocID(docs[i]), []).value
    decreases |binds|
  {
    var id := DocID(docs[i]);
    if binds == [] {
      r := docs[i];
      assert docs[i := r] == docs;
    } else {
      var r1 := ResolveOne(c, values, docs, i, binds[0]);
      var docs1 := docs[i := r1];
      FoundAt(docs1, i, id);
      r := ResolveDoc(c, values, docs1, i, binds[1..]);
      assert docs1[i := r] == docs[i := r];
      ResolveMore(c, values, docs, docs1, id, binds);
    }
  }

  lemma ResolveMore(c: Case, values: Values, docs: seq<Node>, docs1: seq<Node>, id: string, binds: seq<Bind>)
    requires binds != [] && ResolveBinding(c, values, docs, Occurrence(binds[0].ref, id, [] + binds[0].path)) == Some(docs1)
    ensures ResolveBindings(c, values, docs, Absolute(id, [], binds)) == ResolveBindings(c, values, docs1, Absolute(id, [], binds[1..]))
  {
    assert Absolute(id, [], binds)[0] == Occurrence(binds[0].ref, id, [] + binds[0].path);
    assert Absolute(id, [], binds)[1..] == Absolute(id, [], binds[1..]);
  }

  lemma ResolveOne(c: Case, values: Values, docs: seq<Node>, i: nat, b: Bind) returns (r: Node)
    requires Valid(c) && i < |docs| && FindDoc(docs, DocID(docs[i])) == i
    requires EmbeddedAt(c, DocID(docs[i]), [Key("kind")]).None? && EmbeddedAt(c, DocID(docs[i]), [Key("name")]).None?
    requires Spares(docs[i], [b]) && Unnaming(c, DocID(docs[i]), [], b.path) && b.ref in values && b.path != []
    requires SetReads(c, DocID(docs[i]), docs[i], [], b.path, values[b.ref])
    requires Put(Norm(c, docs[i], DocID(docs[i]), []), b.path, Norm(c, values[b.ref], DocID(docs[i]), [] + b.path)).Some?
    ensures ResolveBinding(c, values, docs, Occurrence(b.ref, DocID(docs[i]), [] + b.path)) == Some(docs[i := r])
    ensures SetAt(c, DocID(docs[i]), docs[i], [], b.path, values[b.ref]) == Some(r)
    ensures DocID(r) == DocID(docs[i]) && KindOf(r) == KindOf(docs[i])
    ensures Norm(c, r, DocID(docs[i]), [])
         == Put(Norm(c, docs[i], DocID(docs[i]), []), b.path, Norm(c, values[b.ref], DocID(docs[i]), [] + b.path)).value
  {
    var id := DocID(docs[i]);
    assert [b][0] == b && [] + b.path == b.path;
    SetIsPut(c, id, docs[i], [], b.path, values[b.ref]);
    SetKeepsName(c, id, docs[i], b.path, values[b.ref]);
    r := SetAt(c, id, docs[i], [], b.path, values[b.ref]).value;
  }

  lemma FoundAt(docs: seq<Node>, i: nat, id: string)
    requires i < |docs| && DocID(docs[i]) == id && forall k :: 0 <= k < i ==> DocID(docs[k]) != id
    ensures FindDoc(docs, id) == i
  {
  }

  lemma {:induction false} ResolveSum(c: Case, values: Values, docs: seq<Node>, a: seq<Occurrence>, b: seq<Occurrence>)
    requires ResolveBindings(c, values, docs, a).Some?
    ensures ResolveBindings(c, values, docs, a + b) == ResolveBindings(c, values, ResolveBindings(c, values, docs, a).value, b)
    decreases |a|
  {
    if a == [] {
      assert a + b == b;
    } else {
      var ab := a + b;
      assert ab[0] == a[0] && ab[1..] == a[1..] + b;
      ResolveSum(c, values, ResolveBinding(c, values, docs, a[0]).value, a[1..], b);
    }
  }

  /* ---- one document ---- */

  lemma BindsSpare(c: Case, values: Values, root: Node, stripped: Node)
    requires Valid(c) && DocBound(c, values, root) && NameKept(root) && KindOf(stripped) == KindOf(root)
    ensures Spares(stripped, Binds(c, root, DocID(root), []))
  {
    var doc := DocID(root);
    var binds := Binds(c, root, doc, []);
    forall k | 0 <= k < |binds|
      ensures binds[k].path != [Key("kind")] && (binds[k].path == [Key("name")] ==> KindOf(stripped) == "")
    {
      if binds[k].path == [Key("kind")] {
        BindOfOne(c, root, doc, [], "kind", k);
      }
      if binds[k].path == [Key("name")] {
        BindOfOne(c, root, doc, [], "name", k);
      }
    }
  }

  /** A document, stripped: it has the name that `NameKept` lets it keep. */
  lemma StrippedDoc(c: Case, values: Values, root: Node)
    requires Valid(c) && DocBound(c, values, root) && Strip(c, root, DocID(root), []).Some? && Walk(c, LiteralPass(values), root, DocID(root), []).Some?
    ensures var stripped, doc := Strip(c, root, DocID(root), []).value, DocID(root);
            && (DocID(stripped) == doc <==> NameKept(root))
            && (NameKept(root) ==> Spares(stripped, Binds(c, root, doc, [])))
            && (!NameKept(root) ==> Binds(c, root, doc, []) != [])
            && Walk(c, LiteralPass(values), root, doc, []).value.found == Absolute(doc, [], Binds(c, root, doc, []))
  {
    var doc := DocID(root);
    FoundAreBinds(c, LiteralPass(values), root, doc, []);
    if Quiet(c, root, doc, []) {
      QuietName(c, values, root);
    } else {
      BoundName(c, values, root);
      if NameKept(root) {
        KindKept(c, values, root);
        BindsSpare(c, values, root, Strip(c, root, doc, []).value);
      }
    }
  }

  lemma KindKept(c: Case, values: Values, root: Node)
    requires Valid(c) && DocBound(c, values, root) && !Quiet(c, root, DocID(root), []) && Strip(c, root, DocID(root), []).Some? && NameKept(root)
    ensures KindOf(Strip(c, root, DocID(root), []).value) == KindOf(root)
  {
    if root.Mapping? {
      StrippedField(c, root.entries, DocID(root), "kind");
    }
  }

  /** If its bindings find their places they restore its literal form. */
  lemma BindDoc(c: Case, values: Values, root: Node)
    requires Valid(c) && DocBound(c, values, root) && Reached(c, root, DocID(root), [])
    requires Strip(c, root, DocID(root), []).Some? && Walk(c, LiteralPass(values), root, DocID(root), []).Some?
    ensures var stripped, doc := Strip(c, root, DocID(root), []).value, DocID(root);
            && AllUnnaming(c, doc, Binds(c, root, doc, []))
            && Apply(c, Norm(c, stripped, doc, []), Binds(c, root, doc, []), values, doc, [])
               == Some(Norm(c, Literal(c, values, root, doc, []), doc, []))
  {
    var doc := DocID(root);
    BindNode(c, values, root, doc, []);
    forall k | 0 <= k < |Binds(c, root, doc, [])| ensures Unnaming(c, doc, [], Binds(c, root, doc, [])[k].path) {
      BindUnnaming(c, values, root, doc, [], k);
    }
  }

  /* ---- a fragment ---- */

  /** Documents that mean the same, under the names of `docs`. */
  ghost predicate SameUpToOrder(c: Case, a: seq<Node>, b: seq<Node>, docs: seq<Node>)
    requires Valid(c)
  {
    |a| == |b| == |docs| && forall k :: 0 <= k < |docs| ==> Norm(c, a[k], DocID(docs[k]), []) == Norm(c, b[k], DocID(docs[k]), [])
  }

  /** The name of a document whose references were taken out. */
  function StrippedID(c: Case, root: Node): string
    requires Valid(c)
  {
    var s := Strip(c, root, DocID(root), []);
    if s.Some? then DocID(s.value) else DocID(root)
  }

  /** The documents' names, before and after, are not one another's; `done` are documents already
      bound. */
  ghost predicate NamesApart(c: Case, done: seq<Node>, docs: seq<Node>)
    requires Valid(c)
  {
    && (forall i, k :: 0 <= i < |docs| && 0 <= k < |docs| && i != k ==>
          DocID(docs[i]) != DocID(docs[k]) && StrippedID(c, docs[k]) != DocID(docs[i]))
    && (forall i, k :: 0 <= i < |done| && 0 <= k < |docs| ==> DocID(done[i]) != DocID(docs[k]))
  }

  ghost predicate AllBound(c: Case, values: Values, docs: seq<Node>)
    requires Valid(c)
  {
    forall k :: 0 <= k < |docs| ==> DocBound(c, values, docs[k])
  }

  /** The documents are stripped and filled in one by one. */
  lemma {:induction false} DocForms(c: Case, values: Values, docs: seq<Node>, k: nat)
    requires Valid(c) && k < |docs| && StripDocs(c, docs).Some? && WalkDocs(c, LiteralPass(values), docs).Some?
    ensures Strip(c, docs[k], DocID(docs[k]), []).Some? && Walk(c, LiteralPass(values), docs[k], DocID(docs[k]), []).Some?
    ensures |StripDocs(c, docs).value| == |docs| && StripDocs(c, docs).value[k] == Strip(c, docs[k], DocID(docs[k]), []).value
    ensures |WalkDocs(c, LiteralPass(values), docs).value.result| == |docs|
    ensures WalkDocs(c, LiteralPass(values), docs).value.result[k] == Literal(c, values, docs[k], DocID(docs[k]), [])
    decreases |docs|
  {
    if k > 0 {
      DocForms(c, values, docs[1..], k - 1);
    } else if |docs| > 1 {
      DocForms(c, values, docs[1..], 0);
    }
  }

  lemma NamesApartNext(c: Case, done: seq<Node>, docs: seq<Node>, now: Node)
    requires Valid(c) && docs != [] && NamesApart(c, done, docs) && DocID(now) == DocID(docs[0])
    ensures NamesApart(c, done + [now], docs[1..])
  {
  }

  lemma BindNext(c: Case, values: Values, done: seq<Node>, root: Node, after: seq<Node>) returns (now: Node)
    requires Valid(c) && DocBound(c, values, root) && NameKept(root) && Reached(c, root, DocID(root), [])
    requires Walk(c, LiteralPass(values), root, DocID(root), []).Some? && Strip(c, root, DocID(root), []).Some?
    requires forall k :: 0 <= k < |done| ==> DocID(done[k]) != DocID(root)
    ensures var stripped := Strip(c, root, DocID(root), []).value;
            ResolveBindings(c, values, done + ([stripped] + after), Walk(c, LiteralPass(values), root, DocID(root), []).value.found)
            == Some((done + [now]) + after)
    ensures DocID(now) == DocID(root)
    ensures Norm(c, now, DocID(root), []) == Norm(c, Literal(c, values, root, DocID(root), []), DocID(root), [])
  {
    StrippedDoc(c, values, root);
    BindDoc(c, values, root);
    now := BindAt(c, values, done, Strip(c, root, DocID(root), []).value, after, Binds(c, root, DocID(root), []));
  }

  lemma BindAt(c: Case, values: Values, done: seq<Node>, stripped: Node, after: seq<Node>, binds: seq<Bind>) returns (now: Node)
    requires Valid(c) && (forall k :: 0 <= k < |done| ==> DocID(done[k]) != DocID(stripped))
    requires EmbeddedAt(c, DocID(stripped), [Key("kind")]).None? && EmbeddedAt(c, DocID(stripped), [Key("name")]).None?
    requires Spares(stripped, binds) && AllUnnaming(c, DocID(stripped), binds) && BindsRead(c, values, DocID(stripped), stripped, binds)
    requires Apply(c, Norm(c, stripped, DocID(stripped), []), binds, values, DocID(stripped), []).Some?
    ensures ResolveBindings(c, values, done + ([stripped] + after), Absolute(DocID(stripped), [], binds)) == Some((done + [now]) + after)
    ensures DocID(now) == DocID(stripped)
    ensures Norm(c, now, DocID(stripped), []) == Apply(c, Norm(c, stripped, DocID(stripped), []), binds, values, DocID(stripped), []).value
  {
    var all := done + ([stripped] + after);
    FoundBetween(done, stripped, after);
    now := ResolveDoc(c, values, all, |done|, binds);
    ReplacedBetween(done, stripped, after, now);
  }

  lemma FoundBetween(done: seq<Node>, n: Node, after: seq<Node>)
    requires forall k :: 0 <= k < |done| ==> DocID(done[k]) != DocID(n)
    ensures var all := done + ([n] + after); all[|done|] == n && FindDoc(all, DocID(n)) == |done|
  {
    var all := done + ([n] + after);
    forall k | 0 <= k < |done| ensures all[k] == done[k] {
    }
    FoundAt(all, |done|, DocID(n));
  }

  lemma ReplacedBetween(done: seq<Node>, n: Node, after: seq<Node>, now: Node)
    ensures (done + ([n] + after))[|done| := now] == (done + [now]) + after
  {
  }

  /** A document that lost its name is not found. */
  lemma LostNext(c: Case, values: Values, done: seq<Node>, root: Node, after: seq<Node>, rest: seq<Occurrence>)
    requires Valid(c) && DocBound(c, values, root) && !NameKept(root)
    requires Walk(c, LiteralPass(values), root, DocID(root), []).Some? && Strip(c, root, DocID(root), []).Some?
    requires forall k :: 0 <= k < |done| ==> DocID(done[k]) != DocID(root)
    requires forall k :: 0 <= k < |after| ==> DocID(after[k]) != DocID(root)
    ensures var stripped := Strip(c, root, DocID(root), []).value;
            ResolveBindings(c, values, done + ([stripped] + after), Walk(c, LiteralPass(values), root, DocID(root), []).value.found + rest) == None
  {
    StrippedDoc(c, values, root);
    var stripped := Strip(c, root, DocID(root), []).value;
    var all := done + ([stripped] + after);
    NoneCalled(done, stripped, after, DocID(root));
    NotFound(c, values, all, Walk(c, LiteralPass(values), root, DocID(root), []).value.found, rest, DocID(root));
  }

  lemma NoneCalled(done: seq<Node>, stripped: Node, after: seq<Node>, id: string)
    requires DocID(stripped) != id
    requires (forall k :: 0 <= k < |done| ==> DocID(done[k]) != id) && (forall k :: 0 <= k < |after| ==> DocID(after[k]) != id)
    ensures var all := done + ([stripped] + after); forall k :: 0 <= k < |all| ==> DocID(all[k]) != id
  {
    var all := done + ([stripped] + after);
    forall k | 0 <= k < |all| ensures DocID(all[k]) != id {
      assert all[k] == if k < |done| then done[k] else if k == |done| then stripped else after[k - |done| - 1];
    }
  }

  /** A binding of a document that is not there fails, and with it the resolution. */
  lemma NotFound(c: Case, values: Values, docs: seq<Node>, found: seq<Occurrence>, rest: seq<Occurrence>, id: string)
    requires found != [] && found[0].doc == id && forall k :: 0 <= k < |docs| ==> DocID(docs[k]) != id
    ensures ResolveBindings(c, values, docs, found + rest) == None
  {
    assert (found + rest)[0] == found[0];
    assert ResolveBinding(c, values, docs, found[0]) == None;
  }

  lemma BindBoth(c: Case, values: Values, before: seq<Node>, first: seq<Occurrence>, others: seq<Occurrence>, middle: seq<Node>)
    requires ResolveBindings(c, values, before, first) == Some(middle)
    ensures ResolveBindings(c, values, before, first + others) == ResolveBindings(c, values, middle, others)
  {
    ResolveSum(c, values, before, first, others);
  }

  /** Every document keeps its name and is reached by its bindings. */
  ghost predicate AllReached(c: Case, docs: seq<Node>)
    requires Valid(c)
  {
    forall k :: 0 <= k < |docs| ==> NameKept(docs[k]) && Reached(c, docs[k], DocID(docs[k]), [])
  }

  /** The bindings of the first document, and then those of the others. */
  lemma BindOne(c: Case, values: Values, done: seq<Node>, docs: seq<Node>) returns (now: Node)
    requires Valid(c) && docs != [] && AllBound(c, values, docs) && NamesApart(c, done, docs) && AllReached(c, docs)
    requires StripDocs(c, docs).Some? && WalkDocs(c, LiteralPass(values), docs).Some?
    ensures NamesApart(c, done + [now], docs[1..])
    ensures ResolveBindings(c, values, done + StripDocs(c, docs).value, WalkDocs(c, LiteralPass(values), docs).value.found)
         == ResolveBindings(c, values, (done + [now]) + StripDocs(c, docs[1..]).value, WalkDocs(c, LiteralPass(values), docs[1..]).value.found)
    ensures Norm(c, now, DocID(docs[0]), []) == Norm(c, Literal(c, values, docs[0], DocID(docs[0]), []), DocID(docs[0]), [])
  {
    var d, rest := docs[0], docs[1..];
    var stripped, after := Strip(c, d, DocID(d), []).value, StripDocs(c, rest).value;
    now := BindNext(c, values, done, d, after);
    NamesApartNext(c, done, docs, now);
    BindBoth(c, values, done + ([stripped] + after), Walk(c, LiteralPass(values), d, DocID(d), []).value.found,
             WalkDocs(c, LiteralPass(values), rest).value.found, (done + [now]) + after);
  }

  /** Documents that mean what the literal forms of `docs` mean, one by one. */
  ghost predicate AllAlike(c: Case, values: Values, r: seq<Node>, docs: seq<Node>)
    requires Valid(c) && WalkDocs(c, LiteralPass(values), docs).Some?
    decreases |docs|
  {
    |r| == |docs| &&
    (docs != [] ==>
       && Norm(c, r[0], DocID(docs[0]), []) == Norm(c, Literal(c, values, docs[0], DocID(docs[0]), []), DocID(docs[0]), [])
       && AllAlike(c, values, r[1..], docs[1..]))
  }

  lemma {:induction false} AlikeIsSame(c: Case, values: Values, r: seq<Node>, docs: seq<Node>)
    requires Valid(c) && WalkDocs(c, LiteralPass(values), docs).Some? && AllAlike(c, values, r, docs)
    ensures SameUpToOrder(c, r, WalkDocs(c, LiteralPass(values), docs).value.result, docs)
    decreases |docs|
  {
    if docs != [] {
      AlikeIsSame(c, values, r[1..], docs[1..]);
      SameFirst(c, r[0], Literal(c, values, docs[0], DocID(docs[0]), []), r[1..], WalkDocs(c, LiteralPass(values), docs[1..]).value.result, docs);
      assert r == [r[0]] + r[1..];
    }
  }

  /** Documents that keep their names are all restored. */
  lemma {:induction false} BindDocs(c: Case, values: Values, done: seq<Node>, docs: seq<Node>) returns (r: seq<Node>)
    requires Valid(c) && AllBound(c, values, docs) && NamesApart(c, done, docs) && AllReached(c, docs)
    requires StripDocs(c, docs).Some? && WalkDocs(c, LiteralPass(values), docs).Some?
    ensures ResolveBindings(c, values, done + StripDocs(c, docs).value, WalkDocs(c, LiteralPass(values), docs).value.found) == Some(done + r)
    ensures AllAlike(c, values, r, docs)
    decreases |docs|
  {
    if docs == [] {
      r := [];
      NoDocs(c, values, done);
    } else {
      var now := BindOne(c, values, done, docs);
      RestBound(c, values, docs);
      var r1 := BindDocs(c, values, done + [now], docs[1..]);
      r := [now] + r1;
      OneMore(done, now, r1);
    }
  }

  lemma RestBound(c: Case, values: Values, docs: seq<Node>)
    requires Valid(c) && docs != [] && AllBound(c, values, docs)
    ensures AllBound(c, values, docs[1..]) && (AllReached(c, docs) ==> AllReached(c, docs[1..]))
  {
  }

  lemma OneMore(done: seq<Node>, now: Node, r: seq<Node>)
    ensures ([now] + r)[1..] == r && ([now] + r)[0] == now && done + ([now] + r) == (done + [now]) + r
  {
  }

  lemma NoDocs(c: Case, values: Values, done: seq<Node>)
    ensures ResolveBindings(c, values, done + [], []) == Some(done + [])
  {
  }

  /* ---- runs that end ---- */

  /** The bindings of a document from the k-th on, in whatever state it is, if they can all be set. */
  lemma {:induction false} RunDoc(c: Case, values: Values, docs: seq<Node>, i: nat, root: Node, k: nat) returns (r: Node)
    requires Valid(c) && DocBound(c, values, root) && i < |docs| && DocID(docs[i]) == DocID(root) && FindDoc(docs, DocID(root)) == i
    requires Strip(c, root, DocID(root), []).Some? && Walk(c, LiteralPass(values), root, DocID(root), []).Some?
    requires var doc := DocID(root);
             var binds := Binds(c, root, doc, []);
             && k <= |binds| && Spares(docs[i], binds) && Coherent(c, root, doc, [], Norm(c, docs[i], doc, []))
             && BindsRead(c, values, doc, docs[i], binds[k..])
             && ResolveBindings(c, values, docs, Absolute(doc, [], binds[k..])).Some?
    ensures ResolveBindings(c, values, docs, Absolute(DocID(root), [], Binds(c, root, DocID(root), [])[k..])) == Some(docs[i := r])
    ensures DocID(r) == DocID(root) && Coherent(c, root, DocID(root), [], Norm(c, r, DocID(root), []))
    decreases |Binds(c, root, DocID(root), [])| - k
  {
    var doc := DocID(root);
    var binds := Binds(c, root, doc, []);
    if k == |binds| {
      r := docs[i];
      assert binds[k..] == [] && docs[i := r] == docs;
    } else {
      var rest := binds[k..];
      assert rest[0] == binds[k] && rest[1..] == binds[k + 1..];
      assert Absolute(doc, [], rest)[0] == Occurrence(binds[k].ref, doc, [] + binds[k].path);
      assert Absolute(doc, [], rest)[1..] == Absolute(doc, [], binds[k + 1..]);
      var r1 := RunOne(c, values, docs, i, root, k);
      FoundAt(docs[i := r1], i, doc);
      r := RunDoc(c, values, docs[i := r1], i, root, k + 1);
      assert docs[i := r1][i := r] == docs[i := r];
    }
  }

  lemma RunOne(c: Case, values: Values, docs: seq<Node>, i: nat, root: Node, k: nat) returns (r: Node)
    requires Valid(c) && DocBound(c, values, root) && i < |docs| && DocID(docs[i]) == DocID(root) && FindDoc(docs, DocID(root)) == i
    requires Strip(c, root, DocID(root), []).Some? && Walk(c, LiteralPass(values), root, DocID(root), []).Some?
    requires var doc := DocID(root);
             var binds := Binds(c, root, doc, []);
             && k < |binds| && Spares(docs[i], binds) && Coherent(c, root, doc, [], Norm(c, docs[i], doc, []))
             && BindsRead(c, values, doc, docs[i], binds[k..]) && binds[k..][0] == binds[k] && binds[k..][1..] == binds[k + 1..]
             && ResolveBinding(c, values, docs, Occurrence(binds[k].ref, doc, [] + binds[k].path)).Some?
    ensures var doc := DocID(root);
            var binds := Binds(c, root, doc, []);
            && ResolveBinding(c, values, docs, Occurrence(binds[k].ref, doc, [] + binds[k].path)) == Some(docs[i := r])
            && DocID(r) == doc && Spares(r, binds) && Coherent(c, root, doc, [], Norm(c, r, doc, [])) && BindsRead(c, values, doc, r, binds[k + 1..])
  {
    var doc := DocID(root);
    var b := Binds(c, root, doc, [])[k];
    assert [] + b.path == b.path;
    r := SetAt(c, doc, docs[i], [], b.path, values[b.ref]).value;
    BindFormed(c, root, doc, [], k);
    CoherentStep(c, values, root, doc, [], k, docs[i], values[b.ref]);
    SetKeepsName(c, doc, docs[i], b.path, values[b.ref]);
  }

  lemma {:induction false} ResolveFirst(c: Case, values: Values, docs: seq<Node>, a: seq<Occurrence>, b: seq<Occurrence>)
    requires ResolveBindings(c, values, docs, a + b).Some?
    ensures ResolveBindings(c, values, docs, a).Some?
    decreases |a|
  {
    if a != [] {
      var ab := a + b;
      assert ab[0] == a[0] && ab[1..] == a[1..] + b;
      ResolveFirst(c, values, ResolveBinding(c, values, docs, a[0]).value, a[1..], b);
    }
  }

  /** The first document of a run that ends: it keeps its name and is coherent, and the others follow. */
  lemma RunFirst(c: Case, values: Values, done: seq<Node>, docs: seq<Node>) returns (now: Node)
    requires Valid(c) && docs != [] && AllBound(c, values, docs) && NamesApart(c, done, docs)
    requires StripDocs(c, docs).Some? && WalkDocs(c, LiteralPass(values), docs).Some?
    requires ResolveBindings(c, values, done + StripDocs(c, docs).value, WalkDocs(c, LiteralPass(values), docs).value.found).Some?
    ensures NameKept(docs[0]) && DocID(now) == DocID(docs[0]) && Coherent(c, docs[0], DocID(docs[0]), [], Norm(c, now, DocID(docs[0]), []))
    ensures ResolveBindings(c, values, done + StripDocs(c, docs).value, WalkDocs(c, LiteralPass(values), docs).value.found)
         == ResolveBindings(c, values, (done + [now]) + StripDocs(c, docs[1..]).value, WalkDocs(c, LiteralPass(values), docs[1..]).value.found)
  {
    var root, rest := docs[0], docs[1..];
    var stripped, after := Strip(c, root, DocID(root), []).value, StripDocs(c, rest).value;
    var first, others := Walk(c, LiteralPass(values), root, DocID(root), []).value.found, WalkDocs(c, LiteralPass(values), rest).value.found;
    StrippedDoc(c, values, root);
    ResolveFirst(c, values, done + ([stripped] + after), first, others);
    if !NameKept(root) {
      AfterApart(c, values, done, docs);
      LostNext(c, values, done, root, after, others);
    }
    now := RunAt(c, values, done, root, after);
    BindBoth(c, values, done + ([stripped] + after), first, others, (done + [now]) + after);
  }

  lemma RunAt(c: Case, values: Values, done: seq<Node>, root: Node, after: seq<Node>) returns (now: Node)
    requires Valid(c) && DocBound(c, values, root) && NameKept(root)
    requires Strip(c, root, DocID(root), []).Some? && Walk(c, LiteralPass(values), root, DocID(root), []).Some?
    requires forall k :: 0 <= k < |done| ==> DocID(done[k]) != DocID(root)
    requires var stripped := Strip(c, root, DocID(root), []).value;
             ResolveBindings(c, values, done + ([stripped] + after), Walk(c, LiteralPass(values), root, DocID(root), []).value.found).Some?
    ensures var stripped := Strip(c, root, DocID(root), []).value;
            ResolveBindings(c, values, done + ([stripped] + after), Walk(c, LiteralPass(values), root, DocID(root), []).value.found)
            == Some((done + [now]) + after)
    ensures DocID(now) == DocID(root) && Coherent(c, root, DocID(root), [], Norm(c, now, DocID(root), []))
  {
    var stripped := Strip(c, root, DocID(root), []).value;
    StrippedDoc(c, values, root);
    CoherentStart(c, values, root, DocID(root), []);
    FoundBetween(done, stripped, after);
    var binds := Binds(c, root, DocID(root), []);
    assert binds[0..] == binds;
    now := RunDoc(c, values, done + ([stripped] + after), |done|, root, 0);
    ReplacedBetween(done, stripped, after, now);
  }

  lemma AfterApart(c: Case, values: Values, done: seq<Node>, docs: seq<Node>)
    requires Valid(c) && docs != [] && NamesApart(c, done, docs)
    requires StripDocs(c, docs).Some? && WalkDocs(c, LiteralPass(values), docs).Some?
    ensures forall k :: 0 <= k < |StripDocs(c, docs[1..]).value| ==> DocID(StripDocs(c, docs[1..]).value[k]) != DocID(docs[0])
  {
    var rest := docs[1..];
    if rest != [] {
      DocForms(c, values, rest, 0);
    }
    forall k | 0 <= k < |StripDocs(c, rest).value| ensures DocID(StripDocs(c, rest).value[k]) != DocID(docs[0]) {
      DocForms(c, values, rest, k);
      assert rest[k] == docs[k + 1];
    }
  }

  /** A run that ends: every document keeps its name and ends coherent. */
  lemma {:induction false} RunDocs(c: Case, values: Values, done: seq<Node>, docs: seq<Node>) returns (r: seq<Node>)
    requires Valid(c) && AllBound(c, values, docs) && NamesApart(c, done, docs)
    requires StripDocs(c, docs).Some? && WalkDocs(c, LiteralPass(values), docs).Some?
    requires ResolveBindings(c, values, done + StripDocs(c, docs).value, WalkDocs(c, LiteralPass(values), docs).value.found).Some?
    ensures ResolveBindings(c, values, done + StripDocs(c, docs).value, WalkDocs(c, LiteralPass(values), docs).value.found) == Some(done + r)
    ensures |r| == |docs|
    ensures forall k :: 0 <= k < |docs| ==> NameKept(docs[k]) && Coherent(c, docs[k], DocID(docs[k]), [], Norm(c, r[k], DocID(docs[k]), []))
    decreases |docs|
  {
    if docs == [] {
      r := [];
      NoDocs(c, values, done);
    } else {
      var now := RunFirst(c, values, done, docs);
      RestBound(c, values, docs);
      NamesApartNext(c, done, docs, now);
      var r1 := RunDocs(c, values, done + [now], docs[1..]);
      r := [now] + r1;
      OneMore(done, now, r1);
      forall k | 0 <= k < |docs|
        ensures NameKept(docs[k]) && Coherent(c, docs[k], DocID(docs[k]), [], Norm(c, r[k], DocID(docs[k]), []))
      {
        if k > 0 {
          assert docs[1..][k - 1] == docs[k] && r[k] == r1[k - 1];
        }
      }
    }
  }

  lemma SameFirst(c: Case, a: Node, b: Node, rest: seq<Node>, bs: seq<Node>, docs: seq<Node>)
    requires Valid(c) && docs != [] && Norm(c, a, DocID(docs[0]), []) == Norm(c, b, DocID(docs[0]), [])
    requires SameUpToOrder(c, rest, bs, docs[1..])
    ensures SameUpToOrder(c, [a] + rest, [b] + bs, docs)
  {
    forall k | 0 <= k < |docs|
      ensures Norm(c, ([a] + rest)[k], DocID(docs[k]), []) == Norm(c, ([b] + bs)[k], DocID(docs[k]), [])
    {
      if k > 0 {
        assert docs[1..][k - 1] == docs[k];
      }
    }
  }

  /** The binding form of a fragment, its bindings applied in the order they were found, is the literal
      form up to the order of keys. */
  ghost predicate Resolves(c: Case, values: Values, docs: seq<Node>)
    requires Valid(c) && StripDocs(c, docs).Some? && WalkDocs(c, LiteralPass(values), docs).Some?
  {
    var literal := WalkDocs(c, LiteralPass(values), docs).value;
    var r := ResolveBindings(c, values, StripDocs(c, docs).value, literal.found);
    r.Some? && SameUpToOrder(c, r.value, literal.result, docs)
  }

  lemma ReachedResolves(c: Case, values: Values, docs: seq<Node>)
    requires Valid(c) && AllBound(c, values, docs) && NamesApart(c, [], docs)
    requires StripDocs(c, docs).Some? && WalkDocs(c, LiteralPass(values), docs).Some? && AllReached(c, docs)
    ensures Resolves(c, values, docs)
  {
    var r := BindDocs(c, values, [], docs);
    NothingBefore(StripDocs(c, docs).value);
    NothingBefore(r);
    AlikeIsSame(c, values, r, docs);
  }

  lemma ResolvedIsReached(c: Case, values: Values, docs: seq<Node>)
    requires Valid(c) && AllBound(c, values, docs) && NamesApart(c, [], docs)
    requires StripDocs(c, docs).Some? && WalkDocs(c, LiteralPass(values), docs).Some? && Resolves(c, values, docs)
    ensures AllReached(c, docs)
  {
    NothingBefore(StripDocs(c, docs).value);
    var r := RunDocs(c, values, [], docs);
    NothingBefore(r);
    forall k | 0 <= k < |docs| ensures NameKept(docs[k]) && Reached(c, docs[k], DocID(docs[k]), []) {
      DocForms(c, values, docs, k);
      EndsReached(c, values, docs[k], r[k]);
    }
  }

  /** A document that ends coherent and means what its literal form means. */
  lemma EndsReached(c: Case, values: Values, root: Node, r: Node)
    requires Valid(c) && DocBound(c, values, root)
    requires Strip(c, root, DocID(root), []).Some? && Walk(c, LiteralPass(values), root, DocID(root), []).Some?
    requires Coherent(c, root, DocID(root), [], Norm(c, r, DocID(root), []))
    requires Norm(c, r, DocID(root), []) == Norm(c, Literal(c, values, root, DocID(root), []), DocID(root), [])
    ensures Reached(c, root, DocID(root), [])
  {
    CoherentEnd(c, values, root, DocID(root), []);
  }

  lemma NothingBefore(docs: seq<Node>)
    ensures [] + docs == docs
  {
  }

  /**
   For every fragment that has a binding form: it resolves to the literal form exactly when every
   document keeps its name and every reference is reached, that is, is in an identified document or
   embedded document and below elements that are the first of their name and not named by a reference.
   Deleting the references, dropping the mappings this empties and creating them again lose nothing.
   */
  lemma BindingFormResolvesIff(c: Case, values: Values, docs: seq<Node>)
    requires Valid(c) && AllBound(c, values, docs) && NamesApart(c, [], docs)
    requires StripDocs(c, docs).Some? && WalkDocs(c, LiteralPass(values), docs).Some?
    ensures Resolves(c, values, docs) <==> forall k :: 0 <= k < |docs| ==> NameKept(docs[k]) && Reached(c, docs[k], DocID(docs[k]), [])
  {
    if AllReached(c, docs) {
      ReachedResolves(c, values, docs);
    }
    if Resolves(c, values, docs) {
      ResolvedIsReached(c, values, docs);
    }
  }

  /** One document: a reference in its kind, or in its name when it has a kind, and none of its
      bindings finds it. */
  lemma NamingFieldIsLost(c: Case, values: Values, root: Node)
    requires Valid(c) && DocBound(c, values, root) && StripDocs(c, [root]).Some? && WalkDocs(c, LiteralPass(values), [root]).Some?
    requires RefAt(root, "kind") || (RefAt(root, "name") && KindOf(root) != "")
    ensures ResolveBindings(c, values, StripDocs(c, [root]).value, WalkDocs(c, LiteralPass(values), [root]).value.found) == None
  {
    LostNext(c, values, [], root, [], []);
    assert [] + ([Strip(c, root, DocID(root), []).value] + []) == StripDocs(c, [root]).value;
    var found := Walk(c, LiteralPass(values), root, DocID(root), []).value.found;
    assert found + [] == WalkDocs(c, LiteralPass(values), [root]).value.found;
  }

  /** One document: one with a reference for a name and no kind is restored, as any other whose
      references are reached. */
  lemma OtherDocumentsResolve(c: Case, values: Values, root: Node)
    requires Valid(c) && DocBound(c, values, root) && StripDocs(c, [root]).Some? && WalkDocs(c, LiteralPass(values), [root]).Some?
    requires !RefAt(root, "kind") && (RefAt(root, "name") ==> KindOf(root) == "") && Reached(c, root, DocID(root), [])
    ensures Resolves(c, values, [root])
  {
    assert [root][0] == root;
    BindingFormResolvesIff(c, values, [root]);
  }
}
